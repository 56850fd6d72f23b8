/** What every stage of a tick keeps: no entry is lost or duplicated, ideal slots are in
    their final place, and the sorted queue is fed while messages wait. */
module PifoInvariants {
  import opened EntryBag
  import opened QueueBase
  import opened PifoSpec

  /* Where the entries are. */

  lemma EntriesSplit(a: seq<Slot>, b: seq<Slot>)
    ensures Entries(a + b) == Entries(a) + Entries(b)
  {
  }

  lemma InsertSlotEntries(b: seq<Slot>, i: nat, s: Slot)
    requires i <= |b|
    ensures multiset(Entries(InsertSlot(b, i, s))) == multiset(Entries(b)) + multiset{s.entry}
  {
    assert b == b[..i] + b[i..];
    EntriesSplit(b[..i], b[i..]);
    EntriesSplit(b[..i] + [s], b[i..]);
    EntriesSplit(b[..i], [s]);
    assert Entries([s]) == [s.entry];
  }

  lemma RemoveSlotEntries(b: seq<Slot>, i: nat)
    requires i < |b|
    ensures multiset(Entries(b)) == multiset(Entries(RemoveSlot(b, i))) + multiset{b[i].entry}
  {
    assert b == InsertSlot(RemoveSlot(b, i), i, b[i]);
    InsertSlotEntries(RemoveSlot(b, i), i, b[i]);
  }

  lemma ResumeLive(q: Pifo)
    requires Indexed(q)
    ensures Live(Resume(q)) == Live(q)
  {
    if q.scan == -1 && q.firstunsort != -1 {
      RemoveSlotEntries(q.backing, q.firstunsort);
    }
  }

  lemma AdvanceLive(q: Pifo)
    requires Indexed(q)
    ensures Live(Advance(q)) == Live(q)
  {
    if q.scan != -1 {
      if q.scan >= |q.backing| {
        InsertSlotEntries(q.backing, q.scan, Slot(q.insert, true));
      } else if Less(q.insert, q.backing[q.scan].entry) {
        if q.backing[q.scan].ideal {
          InsertSlotEntries(q.backing, q.scan, Slot(q.insert, true));
        } else {
          RemoveSlotEntries(q.backing, q.scan);
          InsertSlotEntries(RemoveSlot(q.backing, q.scan), q.scan, Slot(q.insert, false));
        }
      }
    }
  }

  lemma RefillLive(q: Pifo)
    requires Indexed(q)
    ensures Live(Refill(q)) == Live(q)
  {
    if WantsRefill(q) {
      RemoveSlotEntries(q.backing, 0);
      assert RemoveSlot(q.backing, 0) == q.backing[1..];
      InsertBag(q.hwqueue, q.backing[0].entry);
    }
  }

  lemma PutDownLive(q: Pifo)
    requires Indexed(q)
    ensures var p := PutDown(q);
      && p.hwqueue == q.hwqueue && multiset(Entries(p.backing)) == multiset(Entries(q.backing)) + Carried(q)
  {
    if q.scan != -1 {
      InsertSlotEntries(q.backing, q.scan, Slot(q.insert, q.scan == |q.backing|));
    }
    hide InsertSlot, Entries;
  }

  lemma SpillLive(q: Pifo)
    requires Indexed(q)
    ensures Live(Spill(q)) == Live(q)
  {
    hide PutDown, Entries;
    if |q.hwqueue| >= q.priorities + 1 {
      PutDownLive(q);
      var last := |q.hwqueue| - 1;
      assert q.hwqueue == q.hwqueue[..last] + [q.hwqueue[last]];
    }
  }

  /* Ideal slots. */

  // The carried entry and the slot it is compared with are different messages.
  lemma CarriedIsNotInBacking(q: Pifo)
    requires Indexed(q) && DistinctIds(q.base.gqueue) && Live(q) == multiset(q.base.gqueue)
    requires 0 <= q.scan < |q.backing|
    ensures Less(q.insert, q.backing[q.scan].entry) != Less(q.backing[q.scan].entry, q.insert)
  {
    RemoveSlotEntries(q.backing, q.scan);
    PairDistinct(q.base.gqueue, q.insert, q.backing[q.scan].entry);
  }

  lemma ResumeIdeal(q: Pifo)
    requires Indexed(q) && IdealOrder(q)
    ensures IdealOrder(Resume(q))
  {
    if q.scan == -1 && q.firstunsort != -1 {
      var r := Resume(q);
      assert forall k :: 0 <= k < |r.backing| ==> r.backing[k] == q.backing[if k < q.firstunsort then k else k + 1];
    }
  }

  // Putting an entry down in front of the slots it is smaller than.
  lemma InsertSlotIdeal(b: seq<Slot>, i: nat, s: Slot)
    requires i <= |b|
    requires forall j, k :: 0 <= j < k < |b| && b[j].ideal ==> Less(b[j].entry, b[k].entry)
    requires forall j :: 0 <= j < i && b[j].ideal ==> Less(b[j].entry, s.entry)
    requires s.ideal ==> forall k :: i <= k < |b| ==> Less(s.entry, b[k].entry)
    ensures var r := InsertSlot(b, i, s);
      forall j, k :: 0 <= j < k < |r| && r[j].ideal ==> Less(r[j].entry, r[k].entry)
  {
    var r := InsertSlot(b, i, s);
    assert forall k :: 0 <= k < |r| ==> r[k] == (if k < i then b[k] else if k == i then s else b[k - 1]);
  }

  // Swapping the carried entry with a larger one that is not ideal.
  lemma SwapIdeal(q: Pifo)
    requires Indexed(q) && IdealOrder(q) && 0 <= q.scan < |q.backing|
    requires Less(q.insert, q.backing[q.scan].entry) && !q.backing[q.scan].ideal
    ensures IdealOrder(Advance(q))
  {
    var r, s := Advance(q), q.scan;
    assert r.backing == q.backing[s := Slot(q.insert, false)] && r.insert == q.backing[s].entry && r.scan == s + 1;
    hide Advance;
    forall i, j | 0 <= i < j < |r.backing| && r.backing[i].ideal
      ensures Less(r.backing[i].entry, r.backing[j].entry)
    {
      assert i != s && q.backing[i].ideal;
      if j == s {
        assert Less(q.backing[i].entry, q.insert);
      }
    }
  }

  lemma AdvanceIdeal(q: Pifo)
    requires Indexed(q) && IdealOrder(q)
    requires DistinctIds(q.base.gqueue) && Live(q) == multiset(q.base.gqueue)
    ensures IdealOrder(Advance(q))
  {
    hide Live, DistinctIds;
    if q.scan != -1 {
      var s := q.scan;
      if s >= |q.backing| {
        InsertSlotIdeal(q.backing, s, Slot(q.insert, true));
      } else {
        CarriedIsNotInBacking(q);
        if !Less(q.insert, q.backing[s].entry) {
          assert Advance(q) == q.(scan := s + 1);
        } else if q.backing[s].ideal {
          InsertSlotIdeal(q.backing, s, Slot(q.insert, true));
        } else {
          SwapIdeal(q);
        }
      }
    }
  }

  lemma RefillIdeal(q: Pifo)
    requires Indexed(q) && IdealOrder(q)
    ensures IdealOrder(Refill(q))
  {
  }

  lemma SpillIdeal(q: Pifo)
    requires Indexed(q) && IdealOrder(q)
    ensures IdealOrder(Spill(q))
  {
    if |q.hwqueue| >= q.priorities + 1 && q.scan != -1 {
      InsertSlotIdeal(q.backing, q.scan, Slot(q.insert, q.scan == |q.backing|));
    }
  }

  /* The stages one after the other. */

  // A stage moves entries about; it neither accounts nor completes anything.
  ghost predicate Kept(q: Pifo, r: Pifo) {
    Valid(r) && r.base == q.base && r.active == q.active
  }

  lemma ResumeValid(q: Pifo)
    requires Valid(q)
    ensures Kept(q, Resume(q))
  {
    ResumeLive(q);
    ResumeIdeal(q);
  }

  lemma AdvanceValid(q: Pifo)
    requires Valid(q)
    ensures Kept(q, Advance(q))
  {
    hide Live, IdealOrder, Sorted, Less, InsertSlot, RemoveSlot;
    AdvanceLive(q);
    AdvanceIdeal(q);
  }

  lemma RefillValid(q: Pifo)
    requires Valid(q)
    ensures Kept(q, Refill(q))
  {
    RefillLive(q);
    RefillIdeal(q);
    if q.backing != [] {
      InsertBag(q.hwqueue, q.backing[0].entry);
    }
  }

  lemma SpillValid(q: Pifo)
    requires Valid(q)
    ensures Kept(q, Spill(q))
  {
    SpillLive(q);
    SpillIdeal(q);
  }

  lemma StepValid(q: Pifo)
    requires Valid(q)
    ensures Kept(q, Step(q))
  {
    ResumeValid(q);
    AdvanceValid(Resume(q));
    RefillValid(Advance(Resume(q)));
    SpillValid(Refill(Advance(Resume(q))));
  }

  /* Feeding the sorted queue. */

  // Once the sorter has had its turn, a live message is in the sorted queue or in the
  // vector: had the carried entry been all there is, it would have been put down.
  lemma AdvanceShows(q: Pifo)
    requires Valid(q) && q.active > 0
    requires q.scan == -1 ==> q.firstunsort == -1
    ensures Advance(q).hwqueue != [] || Advance(q).backing != []
  {
    if q.hwqueue == [] && q.backing == [] {
      assert q.base.gqueue[0] in multiset(q.base.gqueue);
      assert q.scan != -1;
    }
  }

  lemma RefillFeeds(q: Pifo)
    requires Indexed(q) && (q.hwqueue != [] || q.backing != [])
    ensures Refill(q).hwqueue != []
  {
    if q.backing != [] {
      InsertBag(q.hwqueue, q.backing[0].entry);
    }
  }

  lemma StepFeeds(q: Pifo)
    requires Valid(q)
    ensures Fed(Step(q))
  {
    if q.active > 0 {
      ResumeValid(q);
      AdvanceValid(Resume(q));
      AdvanceShows(Resume(q));
      RefillFeeds(Advance(Resume(q)));
    }
  }

  /* Arrivals and departures. */

  lemma ArrivalValid(q: Pifo, ts: nat, length: nat)
    requires Valid(q) && length > 0
    ensures Valid(Arrival(q, ts, length))
    ensures Fed(q) ==> Fed(Arrival(q, ts, length))
  {
    var e, r := Arriving(q.base, ts, length), Arrival(q, ts, length);
    ArriveConsistent(q.base, ts, length);
    InsertBag(q.base.gqueue, e);
    InsertBag(q.hwqueue, e);
    hide Insert, Consistent, Less;
    assert Live(r) == Live(q) + multiset{e} && r.active == |r.base.gqueue|;
    assert IdealOrder(r) && Indexed(r) && Consistent(r.base);
  }

  // What is left of a served message, if anything is.
  ghost function Leftover(e: Entry): multiset<Entry> {
    if e.remaining > PACKET_BLOCKS then multiset{e.(remaining := e.remaining - PACKET_BLOCKS)} else multiset{}
  }

  // Serving the head of the sorted queue changes the live entries as the account does.
  lemma ServeLive(hw: Bag, buff: int)
    requires hw != [] && Sorted(hw)
    ensures var s := Serve(hw, buff);
      && Sorted(s.rest)
      && s.entry == hw[0]
      && multiset(s.rest) == multiset(hw) - multiset{hw[0]} + Leftover(hw[0])
  {
    assert hw == [hw[0]] + hw[1..];
    InsertBag(hw[1..], hw[0].(remaining := hw[0].remaining - PACKET_BLOCKS));
  }

  lemma DispatchBase(q: Pifo)
    requires Valid(q) && q.hwqueue != [] && q.base.buff == 0
    ensures q.hwqueue[0] in q.base.gqueue
    ensures Consistent(Dispatch(q).base)
    ensures Backlog(Dispatch(q).base) == Backlog(q.base) && Dispatch(q).base.buff > 0
    ensures Dispatch(q).active == |Dispatch(q).base.gqueue|
    ensures multiset(Dispatch(q).base.gqueue)
         == multiset(q.base.gqueue) - multiset{q.hwqueue[0]} + Leftover(q.hwqueue[0])
  {
    var head := q.hwqueue[0];
    assert head in multiset(q.hwqueue) && head in Live(q) && head in multiset(q.base.gqueue);
    AccountConsistent(q.base, head);
  }

  lemma DispatchLive(q: Pifo)
    requires q.hwqueue != [] && q.base.gqueue != [] && Sorted(q.hwqueue)
    ensures Sorted(Dispatch(q).hwqueue)
    ensures Live(Dispatch(q)) == Live(q) - multiset{q.hwqueue[0]} + Leftover(q.hwqueue[0])
  {
    var r := Dispatch(q);
    ServeLive(q.hwqueue, q.base.buff);
    assert r.hwqueue == Serve(q.hwqueue, q.base.buff).rest;
    assert Carried(r) == Carried(q) && r.backing == q.backing;
    assert q.hwqueue[0] in multiset(q.hwqueue);
    MoveInPart(multiset(q.hwqueue), multiset(Entries(q.backing)), Carried(q), multiset{q.hwqueue[0]},
        Leftover(q.hwqueue[0]));
  }

  lemma DispatchValid(q: Pifo)
    requires Valid(q) && q.hwqueue != [] && q.base.buff == 0
    ensures Valid(Dispatch(q))
    ensures Backlog(Dispatch(q).base) == Backlog(q.base) && Dispatch(q).base.buff > 0
  {
    DispatchBase(q);
    DispatchLive(q);
  }

  // Replacing an entry in one part of a sum replaces it in the sum.
  lemma MoveInPart(part: multiset<Entry>, b: multiset<Entry>, c: multiset<Entry>, taken: multiset<Entry>,
      put: multiset<Entry>)
    requires taken <= part
    ensures (part - taken + put) + b + c == (part + b + c) - taken + put
  {
  }

  // A departure from a fed queue serves a live message and never comes back empty-handed.
  lemma DepartureValid(q: Pifo)
    requires Valid(q) && Fed(q)
    ensures Valid(Departure(q))
    ensures Departure(q).base.gqueue != [] ==> Departure(q).base.buff > 0
    ensures Backlog(Departure(q).base) == if q.base.buff > 0 then Backlog(q.base) - 1 else Backlog(q.base)
  {
    var q0 := q.(base := CountDown(q.base));
    if q0.base.buff == 0 && q0.active != 0 {
      DispatchValid(q0);
    }
  }
}
