/** How large the sorted queue gets, and what the sorter achieves. */
module PifoSorter {
  import opened EntryBag
  import opened QueueBase
  import opened PifoSpec
  import opened PifoInvariants
  import opened QueueRuns

  function One(c: bool): nat {
    if c then 1 else 0
  }

  /* The size of the sorted queue. */

  // What the sorted queue holds when the vector has handed over its head, if it did.
  function BeforeSpill(q: Pifo): Pifo
    requires Indexed(q)
  {
    Refill(Advance(Resume(q)))
  }

  predicate Refills(q: Pifo)
    requires Indexed(q)
  {
    WantsRefill(Advance(Resume(q)))
  }

  lemma ResumeLeavesQueue(q: Pifo)
    requires Indexed(q)
    ensures Resume(q).hwqueue == q.hwqueue && Resume(q).priorities == q.priorities
  {
    hide RemoveSlot;
  }

  lemma AdvanceLeavesQueue(q: Pifo)
    requires Indexed(q)
    ensures Advance(q).hwqueue == q.hwqueue && Advance(q).priorities == q.priorities
  {
    hide InsertSlot, RemoveSlot, Less;
  }

  lemma SorterLeavesQueue(q: Pifo)
    requires Indexed(q)
    ensures var r := Advance(Resume(q)); r.hwqueue == q.hwqueue && r.priorities == q.priorities
  {
    hide Resume, Advance;
    ResumeLeavesQueue(q);
    AdvanceLeavesQueue(Resume(q));
  }

  lemma RefillSize(q: Pifo)
    requires Indexed(q)
    ensures |Refill(q).hwqueue| == |q.hwqueue| + One(WantsRefill(q)) && Refill(q).priorities == q.priorities
    ensures WantsRefill(q) ==> multiset(Refill(q).hwqueue) == multiset(q.hwqueue) + multiset{q.backing[0].entry}
  {
    if q.backing != [] {
      InsertBag(q.hwqueue, q.backing[0].entry);
    }
  }

  // A step takes in at most one entry, and gives one up exactly if it would have more than it
  // should. So it stays small, or at least does not grow.
  lemma StepSize(q: Pifo)
    requires Indexed(q)
    ensures var n := |q.hwqueue| + One(Refills(q));
      |Step(q).hwqueue| == if n > q.priorities then n - 1 else n
    ensures |Step(q).hwqueue| <= q.priorities || |Step(q).hwqueue| <= |q.hwqueue|
  {
    SorterLeavesQueue(q);
    RefillSize(Advance(Resume(q)));
    hide Resume, Advance, Refill, WantsRefill;
  }

  // What it gives up is the greatest entry, which is then carried in front of the vector; an entry
  // carried before is put down where it was, in its final place if that is the end.
  lemma SpillsGreatest(q: Pifo)
    requires Valid(q) && |BeforeSpill(q).hwqueue| > q.priorities
    ensures var p, r := BeforeSpill(q), Step(q);
      && r.scan == 0 && multiset(r.hwqueue) + multiset{r.insert} == multiset(p.hwqueue)
      && (forall e :: e in p.hwqueue ==> !Less(r.insert, e))
      && (p.scan == -1 ==> r.backing == p.backing)
      && (p.scan != -1 ==>
            && |r.backing| == |p.backing| + 1
            && r.backing[..p.scan] == p.backing[..p.scan] && r.backing[p.scan + 1..] == p.backing[p.scan..]
            && r.backing[p.scan].entry == p.insert && (r.backing[p.scan].ideal <==> p.scan == |p.backing|))
  {
    hide Resume, Advance, Refill, Live, IdealOrder;
    ResumeValid(q);
    AdvanceValid(Resume(q));
    RefillValid(Advance(Resume(q)));
    SorterLeavesQueue(q);
    RefillSize(Advance(Resume(q)));
    GivesGreatest(BeforeSpill(q));
  }

  lemma GivesGreatest(p: Pifo)
    requires Indexed(p) && Sorted(p.hwqueue) && |p.hwqueue| > p.priorities
    ensures var r := Spill(p);
      && multiset(r.hwqueue) + multiset{r.insert} == multiset(p.hwqueue)
      && forall e :: e in p.hwqueue ==> !Less(r.insert, e)
  {
    var last := |p.hwqueue| - 1;
    assert p.hwqueue == p.hwqueue[..last] + [p.hwqueue[last]];
    forall e | e in p.hwqueue ensures !Less(p.hwqueue[last], e) {
      var i :| 0 <= i < |p.hwqueue| && p.hwqueue[i] == e;
    }
  }

  // As long as it is small enough it gives nothing up.
  lemma KeepsSmall(q: Pifo)
    requires Indexed(q) && |BeforeSpill(q).hwqueue| <= q.priorities
    ensures Step(q) == BeforeSpill(q)
  {
    SorterLeavesQueue(q);
    RefillSize(Advance(Resume(q)));
    hide Resume, Advance, Refill, WantsRefill;
  }

  // A short queue is refilled while the vector has anything, and its order decides about a longer one.
  lemma RefillsWhenShort(q: Pifo)
    requires Indexed(q) && Advance(Resume(q)).backing != []
    ensures |q.hwqueue| <= q.priorities - 7 ==> Refills(q)
    ensures |q.hwqueue| > q.priorities - 7 ==>
              (Refills(q) <==> Less(Advance(Resume(q)).backing[0].entry, q.hwqueue[q.priorities - 8]))
  {
    SorterLeavesQueue(q);
    hide Resume, Advance;
  }

  lemma DepartureSize(q: Pifo)
    requires Accounted(q)
    ensures |Departure(q).hwqueue| <= |q.hwqueue| && Departure(q).priorities == q.priorities
  {
    if q.hwqueue != [] {
      InsertBag(q.hwqueue[1..], q.hwqueue[0].(remaining := q.hwqueue[0].remaining - PACKET_BLOCKS));
    }
  }

  lemma OfferedSize(q: Pifo, ts: nat, length: nat)
    requires Accounted(q)
    ensures |Offered(q, ts, length).hwqueue| <= |q.hwqueue| + One(length > 0)
    ensures Offered(q, ts, length).priorities == q.priorities
  {
    DepartureSize(q);
    InsertBag(Departure(q).hwqueue, Arriving(Departure(q).base, ts, length));
    hide Departure;
  }

  /* Over runs. */

  // The queue of a run before its next step.
  function Due(priorities: int, arrivals: seq<nat>, length: nat): (q: Pifo)
    requires 8 <= priorities
    ensures Valid(q)
  {
    hide Offered;
    OfferedValid(Run(priorities, arrivals), |arrivals|, length);
    Offered(Run(priorities, arrivals), |arrivals|, length)
  }

  // The step takes in the vector's head although an arrival has filled the queue.
  predicate Bloats(priorities: int, arrivals: seq<nat>, length: nat)
    requires 8 <= priorities
  {
    hide Refills;
    var q := Due(priorities, arrivals, length);
    |q.hwqueue| > priorities && Refills(q)
  }

  function Tally(priorities: int, arrivals: seq<nat>): nat
    requires 8 <= priorities
  {
    if arrivals == [] then 0
    else
      var last := |arrivals| - 1;
      Tally(priorities, arrivals[..last]) + One(Bloats(priorities, arrivals[..last], arrivals[last]))
  }

  lemma RunStep(priorities: int, arrivals: seq<nat>)
    requires 8 <= priorities && arrivals != []
    ensures var last := |arrivals| - 1; var p := Run(priorities, arrivals[..last]);
      && Valid(Offered(p, last, arrivals[last]))
      && Run(priorities, arrivals) == Step(Offered(p, last, arrivals[last]))
  {
    hide Step, Offered;
    OfferedValid(Run(priorities, arrivals[..|arrivals| - 1]), |arrivals| - 1, arrivals[|arrivals| - 1]);
  }

  lemma {:induction false} RunPriorities(priorities: int, arrivals: seq<nat>)
    requires 8 <= priorities
    ensures Run(priorities, arrivals).priorities == priorities
  {
    if arrivals != [] {
      var last := |arrivals| - 1;
      RunPriorities(priorities, arrivals[..last]);
      RunStep(priorities, arrivals);
      var p := Run(priorities, arrivals[..last]);
      OfferedSize(p, last, arrivals[last]);
      StepKeepsPriorities(Offered(p, last, arrivals[last]));
    }
  }

  lemma StepKeepsPriorities(q: Pifo)
    requires Indexed(q)
    ensures Step(q).priorities == q.priorities
  {
    hide Resume, Advance, Refill, WantsRefill;
    SorterLeavesQueue(q);
    RefillSize(Advance(Resume(q)));
  }

  // It outgrows its size by no more than the ticks at which that happened.
  lemma {:induction false} RunSize(priorities: int, arrivals: seq<nat>)
    requires 8 <= priorities
    ensures |Run(priorities, arrivals).hwqueue| <= priorities + Tally(priorities, arrivals)
  {
    hide Run, Offered, Step, Refills;
    if arrivals != [] {
      var last := |arrivals| - 1;
      var p := Run(priorities, arrivals[..last]);
      RunSize(priorities, arrivals[..last]);
      RunPriorities(priorities, arrivals[..last]);
      RunStep(priorities, arrivals);
      OfferedSize(p, last, arrivals[last]);
      StepSize(Offered(p, last, arrivals[last]));
    } else {
      RunEmpty(priorities);
    }
  }

  lemma RunEmpty(priorities: int)
    requires 8 <= priorities
    ensures Run(priorities, []).hwqueue == []
  {
  }

  lemma BloatIsLarge(priorities: int, arrivals: seq<nat>)
    requires 8 <= priorities && arrivals != []
    requires Bloats(priorities, arrivals[..|arrivals| - 1], arrivals[|arrivals| - 1])
    ensures |Run(priorities, arrivals).hwqueue| > priorities
  {
    hide Run, Offered, Step, Refills;
    var last := |arrivals| - 1;
    var p := Run(priorities, arrivals[..last]);
    RunPriorities(priorities, arrivals[..last]);
    RunStep(priorities, arrivals);
    OfferedSize(p, last, arrivals[last]);
    StepSize(Offered(p, last, arrivals[last]));
  }

  function SizeAfter(priorities: int, arrivals: seq<nat>): nat
    requires 8 <= priorities
  {
    |Run(priorities, arrivals).hwqueue|
  }

  ghost predicate AllSmall(priorities: int, arrivals: seq<nat>)
    requires 8 <= priorities
  {
    forall n :: 0 <= n <= |arrivals| ==> SizeAfter(priorities, arrivals[..n]) <= priorities
  }

  lemma AllSmallBefore(priorities: int, before: seq<nat>, length: nat)
    requires 8 <= priorities
    ensures AllSmall(priorities, before + [length]) <==>
              AllSmall(priorities, before) && SizeAfter(priorities, before + [length]) <= priorities
  {
    hide SizeAfter;
    var all := before + [length];
    assert all[..|all|] == all;
    forall n | 0 <= n <= |before| ensures before[..n] == all[..n] {
    }
    if AllSmall(priorities, all) {
      forall n | 0 <= n <= |before| ensures SizeAfter(priorities, before[..n]) <= priorities {
        assert SizeAfter(priorities, all[..n]) <= priorities;
      }
    }
  }

  // It keeps its size all along exactly if that never happens.
  lemma {:induction false} StaysSmall(priorities: int, arrivals: seq<nat>)
    requires 8 <= priorities
    ensures AllSmall(priorities, arrivals) <==> Tally(priorities, arrivals) == 0
  {
    hide Run, Bloats, AllSmall;
    if arrivals == [] {
      RunEmpty(priorities);
      AllSmallEmpty(priorities);
    } else {
      var last := |arrivals| - 1;
      StaysSmall(priorities, arrivals[..last]);
      assert arrivals[..last] + [arrivals[last]] == arrivals;
      AllSmallBefore(priorities, arrivals[..last], arrivals[last]);
      if Bloats(priorities, arrivals[..last], arrivals[last]) {
        BloatIsLarge(priorities, arrivals);
      } else {
        RunSize(priorities, arrivals);
      }
    }
  }

  lemma AllSmallEmpty(priorities: int)
    requires 8 <= priorities
    ensures AllSmall(priorities, [])
  {
    RunEmpty(priorities);
    hide Run;
    assert SizeAfter(priorities, []) == 0;
    hide SizeAfter;
    var none: seq<nat> := [];
    assert forall n :: 0 <= n <= |none| ==> none[..n] == none;
  }

  // A full queue of eight entries; behind the vector's head, which is remembered as misplaced, an
  // entry smaller than all of them.
  const SMALL := Entry(0, 0, 40, 20, false)
  const LARGE := Entry(1, 1, 40, 40, false)

  function Full(): Bag {
    seq(8, i requires 0 <= i => Entry(i + 2, i + 2, 30, 30, false))
  }

  function Misplaced(): Pifo {
    Pifo(Base(5, 10, [SMALL] + Full() + [LARGE], 0, 0, 0, 0), Full(), [Slot(LARGE, false), Slot(SMALL, false)],
         NULL_ENTRY, -1, 0, 10, 8)
  }

  lemma MisplacedValid()
    ensures Valid(Misplaced())
  {
    var q := Misplaced();
    assert Entries(q.backing) == [LARGE, SMALL];
    assert multiset(q.base.gqueue) == multiset(Full()) + multiset([LARGE, SMALL]);
    hide Full, Live;
    MisplacedAccount();
    assert Live(q) == multiset(Full()) + multiset([LARGE, SMALL]) by { LiveParts(q); }
  }

  lemma LiveParts(q: Pifo)
    requires q.scan == -1
    ensures Live(q) == multiset(q.hwqueue) + multiset(Entries(q.backing))
  {
  }

  lemma MisplacedAccount()
    ensures Consistent(Misplaced().base) && Sorted(Misplaced().hwqueue) && Misplaced().active == 10
    ensures |Misplaced().base.gqueue| == 10 && |Misplaced().hwqueue| == 8
  {
  }

  lemma MisplacedOffered()
    ensures var q := Misplaced(); var r := Offered(q, 10, 50);
      && r == q.(base := r.base, hwqueue := r.hwqueue, active := r.active)
      && |r.hwqueue| == 9 && r.hwqueue[0] == Full()[0]
  {
    var q := Misplaced();
    var e := Arriving(Departure(q).base, 10, 50);
    InsertBag(q.hwqueue, e);
    assert Offered(q, 10, 50).hwqueue == Insert(q.hwqueue, e);
    hide Full;
  }

  lemma SortsMisplaced(r: Pifo)
    requires Indexed(r) && r == Misplaced().(base := r.base, hwqueue := r.hwqueue, active := r.active)
    ensures Advance(Resume(r)).backing == [Slot(SMALL, false)]
  {
    hide Full;
  }

  // It happens: the misplaced head is picked up, and the entry behind it moves to the queue in the
  // tick of an arrival.
  lemma OutgrowsSize()
    ensures var q := Misplaced();
      && Valid(q) && Fed(q) && |q.hwqueue| == q.priorities == 8
      && |Step(Offered(q, 10, 50)).hwqueue| == 9
  {
    hide Resume, Advance, Step, Offered, WantsRefill, Live, Consistent, IdealOrder, Sorted;
    var q := Misplaced();
    MisplacedValid();
    MisplacedAccount();
    OfferedValid(q, 10, 50);
    MisplacedOffered();
    var r := Offered(q, 10, 50);
    SortsMisplaced(r);
    RefillsWhenShort(r);
    StepSize(r);
  }

  /* The sorter. */

  // One comparison. In front of an ideal slot that is greater, or at the end, the carried entry is
  // put down in its final place; otherwise the greater of the two goes on and the smaller stays,
  // and is remembered if it changed places.
  lemma Compares(q: Pifo)
    requires Indexed(q) && q.scan >= 0
    ensures var r, k := Advance(q), q.scan;
      var lands := k == |q.backing| || (q.backing[k].ideal && Less(q.insert, q.backing[k].entry));
      && (lands ==> r.scan == -1 && r.backing == q.backing[..k] + [Slot(q.insert, true)] + q.backing[k..])
      && (!lands ==>
            && r.scan == k + 1 && |r.backing| == |q.backing|
            && r.backing[..k] == q.backing[..k] && r.backing[k + 1..] == q.backing[k + 1..]
            && r.backing[k].ideal == q.backing[k].ideal
            && multiset{r.insert, r.backing[k].entry} == multiset{q.insert, q.backing[k].entry}
            && !Less(r.insert, r.backing[k].entry)
            && (r.insert != q.insert ==> 0 <= r.firstunsort <= k))
  {
    if q.scan < |q.backing| {
      var swapped := InsertSlot(RemoveSlot(q.backing, q.scan), q.scan, Slot(q.insert, false));
      assert swapped == q.backing[q.scan := Slot(q.insert, false)];
    }
  }

  function Turns(q: Pifo, n: nat): (r: Pifo)
    requires Indexed(q)
    ensures Indexed(r)
    decreases n
  {
    if n == 0 then q else Turns(Advance(q), n - 1)
  }

  function Ideals(b: seq<Slot>): nat {
    if b == [] then 0 else One(b[0].ideal) + Ideals(b[1..])
  }

  lemma {:induction false} IdealsSplit(b: seq<Slot>, c: seq<Slot>)
    ensures Ideals(b + c) == Ideals(b) + Ideals(c)
  {
    if b == [] {
      assert b + c == c;
    } else {
      assert (b + c)[1..] == b[1..] + c;
      IdealsSplit(b[1..], c);
    }
  }

  lemma IdealsAt(b: seq<Slot>, i: nat)
    requires i < |b|
    ensures Ideals(b) == Ideals(b[..i]) + One(b[i].ideal) + Ideals(b[i + 1..])
  {
    assert b == b[..i] + ([b[i]] + b[i + 1..]);
    IdealsSplit(b[..i], [b[i]] + b[i + 1..]);
    assert ([b[i]] + b[i + 1..])[1..] == b[i + 1..];
  }

  // Left alone, the carried entry and those it is exchanged with reach a final place within as many
  // turns as there are slots in front of it: the greatest of all passed is put down, as one more
  // ideal slot, behind the others.
  lemma {:induction false} PassEnds(q: Pifo) returns (n: nat, p: nat)
    requires Indexed(q) && q.scan >= 0
    ensures n <= |q.backing| - q.scan + 1
    ensures var r := Turns(q, n);
      && r.scan == -1 && |r.backing| == |q.backing| + 1 && Ideals(r.backing) == Ideals(q.backing) + 1
      && q.scan <= p <= |q.backing| && r.backing[p].ideal
      && r.backing[..q.scan] == q.backing[..q.scan] && r.backing[p + 1..] == q.backing[p..]
      && !Less(r.backing[p].entry, q.insert)
      && forall j :: q.scan <= j < p ==> !Less(r.backing[p].entry, r.backing[j].entry)
    decreases |q.backing| - q.scan
  {
    hide Advance, Indexed, Ideals;
    var r, k := Advance(q), q.scan;
    AdvanceIndexed(q);
    Compares(q);
    if r.scan == -1 {
      n, p := 1, k;
      OneTurn(q);
      LandsIdeal(q.backing, k, q.insert);
    } else {
      var m;
      m, p := PassEnds(r);
      n := m + 1;
      IdealsAt(q.backing, k);
      IdealsAt(r.backing, k);
      var s := Turns(r, m);
      assert s.backing[k] == r.backing[k] && s.backing[..k] == s.backing[..r.scan][..k];
      assert s.backing[p + 1..] == r.backing[p..] == q.backing[p..] by {
        assert r.backing[p..] == r.backing[k + 1..][p - k - 1..];
      }
      CarriedGrows(q.insert, q.backing[k].entry, r.insert, r.backing[k].entry, s.backing[p].entry);
    }
  }

  lemma AdvanceIndexed(q: Pifo)
    requires Indexed(q)
    ensures Indexed(Advance(q)) && -1 <= q.scan <= |q.backing|
  {
  }

  lemma OneTurn(q: Pifo)
    requires Indexed(q)
    ensures Turns(q, 1) == Advance(q)
  {
    assert Turns(q, 1) == Turns(Advance(q), 0);
  }

  lemma LandsIdeal(b: seq<Slot>, k: nat, e: Entry)
    requires k <= |b|
    ensures var r := b[..k] + [Slot(e, true)] + b[k..];
      Ideals(r) == Ideals(b) + 1 && r[..k] == b[..k] && r[k + 1..] == b[k..] && r[k] == Slot(e, true)
  {
    var r := b[..k] + [Slot(e, true)] + b[k..];
    assert b == b[..k] + b[k..] && r[..k] == b[..k] && r[k + 1..] == b[k..];
    IdealsSplit(b[..k], b[k..]);
    IdealsAt(r, k);
  }

  // What is put down in the end is no smaller than what was carried or left on the way.
  lemma CarriedGrows(was: Entry, slot: Entry, carried: Entry, left: Entry, last: Entry)
    requires multiset{carried, left} == multiset{was, slot} && !Less(carried, left) && !Less(last, carried)
    ensures !Less(last, was) && !Less(last, left)
  {
    assert was in multiset{carried, left};
  }

  // A remembered slot is the next one taken up, and nothing else changes.
  lemma TakesUp(q: Pifo)
    requires Indexed(q) && q.scan == -1 && q.firstunsort != -1
    ensures var r, k := Resume(q), q.firstunsort;
      && r.scan == k && r.insert == q.backing[k].entry && r.firstunsort == -1 && r.hwqueue == q.hwqueue
      && r.backing == q.backing[..k] + q.backing[k + 1..] && Ideals(r.backing) == Ideals(q.backing)
  {
    var k := q.firstunsort;
    IdealsAt(q.backing, k);
    IdealsSplit(q.backing[..k], q.backing[k + 1..]);
  }

  // With nothing carried and no slot remembered, a small queue that wants nothing stays as it is.
  lemma IdleStays(q: Pifo)
    requires Indexed(q) && q.scan == -1 && q.firstunsort == -1 && !WantsRefill(q) && |q.hwqueue| <= q.priorities
    ensures Step(q) == q
  {
  }

  // The sorter may stop early: only one misplaced slot is remembered. In this state, two entries of
  // the vector are out of order, and no step changes it.
  const FIRST := Entry(0, 0, 50, 50, false)
  const SECOND := Entry(1, 1, 45, 45, false)

  function Forgotten(): Pifo {
    Pifo(Base(5, 10, Full() + [SECOND, FIRST], 0, 0, 0, 0), Full(), [Slot(FIRST, false), Slot(SECOND, true)],
         NULL_ENTRY, -1, -1, 10, 8)
  }

  lemma ForgottenAccount()
    ensures var q := Forgotten();
      && Consistent(q.base) && Indexed(q) && Sorted(q.hwqueue) && IdealOrder(q) && !WantsRefill(q)
      && |q.base.gqueue| == 10 && |q.hwqueue| == 8
  {
  }

  lemma SorterStopsEarly()
    ensures var q := Forgotten();
      && Valid(q) && Fed(q) && Step(q) == q && Less(q.backing[1].entry, q.backing[0].entry)
  {
    var q := Forgotten();
    assert Entries(q.backing) == [FIRST, SECOND];
    ForgottenAccount();
    hide Full, Live, Consistent, IdealOrder, Sorted, WantsRefill;
    LiveParts(q);
    IdleStays(q);
  }
}
