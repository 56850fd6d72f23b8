/** Whole simulation runs: the approximate queue and the ideal one serve different messages,
    but they owe the wire the same work at every tick. */
module QueueRuns {
  import opened EntryBag
  import opened QueueBase
  import opened PifoSpec
  import opened PifoInvariants

  /* One tick of the simulation: departure, an arrival if its length is not zero, step. */

  function Offered(q: Pifo, ts: nat, length: nat): Pifo
    requires Accounted(q)
  {
    if length > 0 then Arrival(Departure(q), ts, length) else Departure(q)
  }

  lemma OfferedValid(q: Pifo, ts: nat, length: nat)
    requires Valid(q) && Fed(q)
    ensures Valid(Offered(q, ts, length))
  {
    DepartureValid(q);
    if length > 0 {
      ArrivalValid(Departure(q), ts, length);
    }
  }

  // The queue after the given arrivals, one per tick, 0 where nothing arrives. No run
  // breaks an invariant, and no run lets a message wait behind an empty sorted queue.
  function Run(priorities: int, arrivals: seq<nat>): (q: Pifo)
    requires 8 <= priorities
    ensures Valid(q) && Fed(q)
  {
    if arrivals == [] then Initial(priorities)
    else
      var last := |arrivals| - 1;
      var p := Run(priorities, arrivals[..last]);
      OfferedValid(p, last, arrivals[last]);
      StepValid(Offered(p, last, arrivals[last]));
      StepFeeds(Offered(p, last, arrivals[last]));
      Step(Offered(p, last, arrivals[last]))
  }

  // No departure of any run finds its queue dry while messages are live, every message
  // that arrived has completed or is live, and every live entry is held exactly once.
  lemma RunLosesNothing(priorities: int, arrivals: seq<nat>)
    requires 8 <= priorities
    ensures var q := Run(priorities, arrivals);
      && q.base.underflow == 0
      && q.base.comps + |q.base.gqueue| == q.base.nextId
      && q.active == |q.hwqueue| + |q.backing| + (if q.scan == -1 then 0 else 1)
      && Live(q) == multiset(q.base.gqueue)
  {
    var q := Run(priorities, arrivals);
    assert |Live(q)| == |multiset(q.base.gqueue)|;
  }

  /* What the live entries are. */

  function Messages(arrivals: seq<nat>): nat {
    if arrivals == [] then 0
    else Messages(arrivals[..|arrivals| - 1]) + if arrivals[|arrivals| - 1] > 0 then 1 else 0
  }

  // A message that arrived, less whole packets; messages are numbered in the order of arrival.
  predicate Genuine(arrivals: seq<nat>, e: Entry) {
    && e.ts < |arrivals| && e.length == arrivals[e.ts] && e.id == Messages(arrivals[..e.ts])
    && 0 < e.remaining <= e.length && (e.length - e.remaining) % PACKET_BLOCKS == 0
  }

  ghost predicate AllGenuine(arrivals: seq<nat>, b: Base) {
    b.nextId == Messages(arrivals) && forall e :: e in b.gqueue ==> Genuine(arrivals, e)
  }

  lemma StaysGenuine(arrivals: seq<nat>, length: nat, b: Base)
    requires AllGenuine(arrivals, b)
    ensures forall e :: e in b.gqueue ==> Genuine(arrivals + [length], e)
  {
    forall e | e in b.gqueue ensures Genuine(arrivals + [length], e) {
      assert (arrivals + [length])[..e.ts] == arrivals[..e.ts];
    }
  }

  lemma DispatchMembers(q: Pifo, e: Entry)
    requires Valid(q) && q.hwqueue != [] && q.base.buff == 0 && e in Dispatch(q).base.gqueue
    ensures var h := q.hwqueue[0];
      e in q.base.gqueue
      || (h in q.base.gqueue && h.remaining > PACKET_BLOCKS && e == h.(remaining := h.remaining - PACKET_BLOCKS))
  {
    hide Dispatch, Live, IdealOrder, Consistent, Sorted, Indexed;
    DispatchBase(q);
    assert e in multiset(Dispatch(q).base.gqueue);
  }

  lemma DispatchGenuine(q: Pifo, arrivals: seq<nat>)
    requires Valid(q) && q.hwqueue != [] && q.base.buff == 0 && AllGenuine(arrivals, q.base)
    ensures AllGenuine(arrivals, Dispatch(q).base)
  {
    hide Consistent, Live, IdealOrder, Insert, Erase, Messages, Genuine, Sorted;
    DispatchBase(q);
    hide Valid;
    forall e | e in Dispatch(q).base.gqueue ensures Genuine(arrivals, e) {
      DispatchMembers(q, e);
      if q.hwqueue[0].remaining > PACKET_BLOCKS && q.hwqueue[0] in q.base.gqueue {
        PacketLessGenuine(arrivals, q.hwqueue[0]);
      }
    }
  }

  lemma PacketLessGenuine(arrivals: seq<nat>, e: Entry)
    requires Genuine(arrivals, e) && e.remaining > PACKET_BLOCKS
    ensures Genuine(arrivals, e.(remaining := e.remaining - PACKET_BLOCKS))
  {
    OnePacketLess(e);
  }

  lemma OnePacketLess(e: Entry)
    ensures (e.length - e.remaining) % PACKET_BLOCKS == 0 ==>
              (e.length - (e.remaining - PACKET_BLOCKS)) % PACKET_BLOCKS == 0
  {
  }

  lemma DepartureGenuine(q: Pifo, arrivals: seq<nat>)
    requires Valid(q) && Fed(q) && AllGenuine(arrivals, q.base)
    ensures AllGenuine(arrivals, Departure(q).base)
  {
    hide Genuine, Messages, Dispatch, Entries, Less;
    var q0 := q.(base := CountDown(q.base));
    if q0.base.buff == 0 && q0.active != 0 {
      DispatchGenuine(q0, arrivals);
    }
  }

  lemma ArrivalGenuine(b: Base, arrivals: seq<nat>, length: nat)
    requires AllGenuine(arrivals, b)
    ensures AllGenuine(arrivals + [length], if length > 0 then Arrive(b, |arrivals|, length) else b)
  {
    var now := arrivals + [length];
    StaysGenuine(arrivals, length, b);
    assert now[..|arrivals|] == arrivals;
    if length > 0 {
      InsertMembers(b.gqueue, Arriving(b, |arrivals|, length));
    }
  }

  lemma OfferedBase(q: Pifo, ts: nat, length: nat)
    requires Valid(q) && Fed(q)
    ensures Accounted(q) && Valid(Offered(q, ts, length))
    ensures Step(Offered(q, ts, length)).base
         == if length > 0 then Arrive(Departure(q).base, ts, length) else Departure(q).base
  {
    hide Step, Departure, Arrive;
    OfferedValid(q, ts, length);
    StepValid(Offered(q, ts, length));
  }

  lemma NoneGenuine(priorities: int)
    requires 8 <= priorities
    ensures AllGenuine([], Run(priorities, []).base)
  {
  }

  // Over every run, each live entry is a message that arrived at its time with its length, and what
  // it has left is its length less whole packets.
  lemma {:induction false} RunGenuine(priorities: int, arrivals: seq<nat>)
    requires 8 <= priorities
    ensures AllGenuine(arrivals, Run(priorities, arrivals).base)
  {
    hide AllGenuine, Departure, Step, Arrive, Valid, Fed;
    if arrivals != [] {
      var last := |arrivals| - 1;
      var before, p := arrivals[..last], Run(priorities, arrivals[..last]);
      RunGenuine(priorities, before);
      assert before + [arrivals[last]] == arrivals;
      OfferedBase(p, last, arrivals[last]);
      DepartureGenuine(p, before);
      ArrivalGenuine(Departure(p).base, before, arrivals[last]);
    } else {
      NoneGenuine(priorities);
    }
  }

  /* Ideal slots, over every run. */

  // When every slot is ideal the vector is sorted, and an ideal head is its minimum.
  lemma RunIdealSlots(priorities: int, arrivals: seq<nat>)
    requires 8 <= priorities
    ensures var q := Run(priorities, arrivals);
      && ((forall i :: 0 <= i < |q.backing| ==> q.backing[i].ideal)
            ==> forall i, j :: 0 <= i < j < |q.backing| ==> Less(q.backing[i].entry, q.backing[j].entry))
      && ((q.backing != [] && q.backing[0].ideal)
            ==> forall j :: 0 < j < |q.backing| ==> Less(q.backing[0].entry, q.backing[j].entry))
  {
    var q := Run(priorities, arrivals);
    assert IdealOrder(q);
  }

  // The sorter has the vector's minimum at its head, or the vector is empty.
  predicate Settled(q: Pifo) {
    (q.backing == [] || q.backing[0].ideal) && q.scan != 0
  }

  // It has the least to send, and is the oldest of those with as little.
  ghost predicate LeastOf(m: Entry, es: multiset<Entry>) {
    forall e :: e in es ==> m.remaining < e.remaining || (m.remaining == e.remaining && m.id <= e.id)
  }

  lemma MembersOfLive(q: Pifo, e: Entry)
    requires Indexed(q) && e in Live(q)
    ensures e in q.hwqueue || (exists i :: 0 <= i < |q.backing| && q.backing[i].entry == e)
            || (q.scan != -1 && e == q.insert)
  {
    if e in multiset(Entries(q.backing)) {
      assert e in Entries(q.backing);
      var i :| 0 <= i < |Entries(q.backing)| && Entries(q.backing)[i] == e;
      assert q.backing[i].entry == e;
    }
  }

  lemma RefillServesLeast(q: Pifo)
    requires Valid(q) && q.active > 0 && Settled(q)
    ensures Refill(q).hwqueue != [] && LeastOf(Refill(q).hwqueue[0], Live(q))
  {
    var r := Refill(q);
    assert q.base.gqueue[0] in multiset(q.base.gqueue);
    if q.backing == [] {
      assert Carried(q) == multiset{} && Entries(q.backing) == [];
    } else {
      InsertBag(q.hwqueue, q.backing[0].entry);
      InsertMembers(q.hwqueue, q.backing[0].entry);
    }
    forall e | e in Live(q) ensures !Less(e, r.hwqueue[0]) {
      MembersOfLive(q, e);
      if e in q.hwqueue {
        assert e in r.hwqueue;
        HeadIsLeast(r.hwqueue, e);
      } else {
        BehindHead(q, e);
      }
    }
  }

  // An entry outside the sorted queue is not below the head of the vector, nor that below the
  // head of the sorted queue.
  lemma BehindHead(q: Pifo, e: Entry)
    requires Valid(q) && Settled(q) && Refill(q).hwqueue != []
    requires (exists i :: 0 <= i < |q.backing| && q.backing[i].entry == e) || (q.scan != -1 && e == q.insert)
    requires q.backing == [] ==> q.scan == -1
    ensures !Less(e, Refill(q).hwqueue[0])
  {
    var r, h := Refill(q), q.backing[0].entry;
    assert e == h || Less(h, e);
    if WantsRefill(q) {
      InsertBag(q.hwqueue, h);
      InsertMembers(q.hwqueue, h);
      HeadIsLeast(r.hwqueue, h);
    } else {
      assert !Less(h, q.hwqueue[q.priorities - 8]);
      HeadIsLeast(q.hwqueue, q.hwqueue[q.priorities - 8]);
    }
  }

  // If the sorter's turn leaves an ideal head (or no vector) and nothing carried in front of
  // it, the entry the next departure serves is the least of all live messages.
  lemma SettledServesLeast(q: Pifo)
    requires Valid(q) && q.active > 0
    requires Settled(Advance(Resume(q)))
    ensures Step(q).hwqueue != [] && LeastOf(Step(q).hwqueue[0], multiset(q.base.gqueue))
  {
    hide Resume, Advance, Refill, Spill, IdealOrder, Less, Settled, Live;
    ResumeValid(q);
    AdvanceValid(Resume(q));
    RefillServesLeast(Advance(Resume(q)));
    SpillKeepsHead(Refill(Advance(Resume(q))));
  }

  lemma SpillKeepsHead(q: Pifo)
    requires Indexed(q) && q.hwqueue != []
    ensures Spill(q).hwqueue != [] && Spill(q).hwqueue[0] == q.hwqueue[0]
  {
  }

  // A departure is not counted as out of order if the head served is not behind the least.
  lemma InOrder(q: Pifo)
    requires Accounted(q)
    requires q.active > 0 ==> q.hwqueue != [] && !Less(q.base.gqueue[0], q.hwqueue[0])
    requires q.active >= 0
    ensures Departure(q).base.pktinacc == q.base.pktinacc
  {
    hide Insert, Erase;
  }

  // So the next departure is not counted as out of order.
  lemma SettledDepartureInOrder(q: Pifo)
    requires Valid(q)
    requires Settled(Advance(Resume(q)))
    ensures Accounted(Step(q)) && Departure(Step(q)).base.pktinacc == q.base.pktinacc
  {
    StepValid(q);
    assert q.active > 0 ==> q.base.gqueue != [] && q.base.gqueue[0] in multiset(q.base.gqueue);
    hide Step, Departure, Less, Live, IdealOrder, Settled;
    if q.active > 0 {
      SettledServesLeast(q);
    }
    InOrder(Step(q));
  }

  // What a departure that serves a message counts: a packet, and one more out of order exactly if a
  // live message had less to send than the one served.
  lemma DispatchCounts(q: Pifo)
    requires Valid(q) && q.hwqueue != [] && q.base.buff == 0
    ensures var d := Dispatch(q).base;
      && d.packets == q.base.packets + 1
      && (d.pktinacc == q.base.pktinacc + 1 <==> exists e :: e in q.base.gqueue && e.remaining < q.hwqueue[0].remaining)
      && (d.pktinacc == q.base.pktinacc + 1 || d.pktinacc == q.base.pktinacc)
  {
    var head, least := q.hwqueue[0], q.base.gqueue[0];
    DispatchBase(q);
    assert least in q.base.gqueue;
    forall e | e in q.base.gqueue ensures !Less(e, least) {
      HeadIsLeast(q.base.gqueue, e);
    }
    hide Insert, Erase, Live, IdealOrder;
  }

  /* The ideal queue. */

  datatype Ideal = Ideal(base: Base, hwqueue: Bag)

  const INITIAL_IDEAL := Ideal(INITIAL_BASE, [])

  function IdealArrival(s: Ideal, ts: nat, length: nat): Ideal {
    Ideal(Arrive(s.base, ts, length), Insert(s.hwqueue, Arriving(s.base, ts, length)))
  }

  function IdealDispatch(s: Ideal): Ideal
    requires s.base.gqueue != []
  {
    var v := Serve(s.hwqueue, s.base.buff);
    Ideal(Account(s.base.(buff := v.buff), v.entry), v.rest)
  }

  function IdealDeparture(s: Ideal): Ideal
    requires s.hwqueue != [] ==> s.base.gqueue != []
  {
    var s0 := s.(base := CountDown(s.base));
    if s0.base.buff != 0 || s0.hwqueue == [] then s0 else IdealDispatch(s0)
  }

  // The ideal queue always holds the live messages in order, so it has never served one
  // out of order.
  ghost predicate IdealValid(s: Ideal) {
    Consistent(s.base) && s.hwqueue == s.base.gqueue && s.base.pktinacc == 0
  }

  lemma IdealArrivalValid(s: Ideal, ts: nat, length: nat)
    requires IdealValid(s) && length > 0
    ensures IdealValid(IdealArrival(s, ts, length))
  {
    ArriveConsistent(s.base, ts, length);
  }

  lemma EraseHead(b: Bag)
    requires b != [] && DistinctIds(b)
    ensures Erase(b, b[0]) == b[1..]
  {
    EraseAt(b, 0);
    assert b[..0] + b[1..] == b[1..];
  }

  // Serving the head and accounting for it change the queue and the reference alike.
  lemma ServeIsAccounted(b: Base)
    requires b.gqueue != [] && Consistent(b) && b.buff == 0
    ensures var v := Serve(b.gqueue, 0); var d := Account(b.(buff := v.buff), v.entry);
      && v.entry == b.gqueue[0]
      && v.buff == (if v.entry.remaining > PACKET_BLOCKS then PACKET_BLOCKS else v.entry.remaining)
      && d.gqueue == v.rest && d.pktinacc == b.pktinacc
  {
    EraseHead(b.gqueue);
    assert b.gqueue[0] in b.gqueue;
    hide Erase, Insert, Sorted;
  }

  lemma IdealDispatchValid(s: Ideal)
    requires IdealValid(s) && s.hwqueue != [] && s.base.buff == 0
    ensures IdealValid(IdealDispatch(s))
    ensures Backlog(IdealDispatch(s).base) == Backlog(s.base) && IdealDispatch(s).base.buff > 0
  {
    AccountConsistent(s.base, s.hwqueue[0]);
    ServeIsAccounted(s.base);
    hide Consistent, Account, Serve, Backlog;
  }

  lemma IdealDepartureValid(s: Ideal)
    requires IdealValid(s)
    ensures IdealValid(IdealDeparture(s))
    ensures IdealDeparture(s).base.gqueue != [] ==> IdealDeparture(s).base.buff > 0
    ensures Backlog(IdealDeparture(s).base) == if s.base.buff > 0 then Backlog(s.base) - 1 else Backlog(s.base)
  {
    var s0 := s.(base := CountDown(s.base));
    if s0.base.buff == 0 && s0.hwqueue != [] {
      IdealDispatchValid(s0);
    }
  }

  function IdealTick(s: Ideal, ts: nat, length: nat): Ideal
    requires s.hwqueue != [] ==> s.base.gqueue != []
  {
    if length > 0 then IdealArrival(IdealDeparture(s), ts, length) else IdealDeparture(s)
  }

  function IdealRun(arrivals: seq<nat>): (s: Ideal)
    ensures IdealValid(s)
  {
    if arrivals == [] then INITIAL_IDEAL
    else
      var last := |arrivals| - 1;
      var p := IdealRun(arrivals[..last]);
      IdealDepartureValid(p);
      if arrivals[last] > 0 then
        IdealArrivalValid(IdealDeparture(p), last, arrivals[last]);
        IdealTick(p, last, arrivals[last])
      else IdealTick(p, last, arrivals[last])
  }

  // It serves the message with the least to send, and of several with as little the oldest.
  lemma IdealServesLeast(arrivals: seq<nat>)
    requires IdealRun(arrivals).hwqueue != []
    ensures LeastOf(IdealRun(arrivals).hwqueue[0], multiset(IdealRun(arrivals).base.gqueue))
  {
    var hw := IdealRun(arrivals).hwqueue;
    forall e | e in multiset(hw) ensures !Less(e, hw[0]) {
      HeadIsLeast(hw, e);
    }
  }

  /* A server that knows nothing but how much work it owes. */

  datatype Fluid = Fluid(work: int, busy: bool, served: nat)

  function FluidTick(f: Fluid, length: nat): Fluid {
    var left := if f.busy then f.work - 1 else f.work;
    Fluid(left + length, left > 0, if f.busy then f.served + 1 else f.served)
  }

  function FluidRun(arrivals: seq<nat>): Fluid {
    if arrivals == [] then Fluid(0, false, 0)
    else FluidTick(FluidRun(arrivals[..|arrivals| - 1]), arrivals[|arrivals| - 1])
  }

  ghost predicate Owes(b: Base, f: Fluid) {
    Backlog(b) == f.work && (b.buff > 0 <==> f.busy)
  }

  lemma {:induction false} TotalPositive(b: Bag)
    requires Positive(b)
    ensures Total(b) >= 0 && (b != [] ==> Total(b) > 0)
  {
    if b != [] {
      assert b[0] in b;
      TotalPositive(b[1..]);
    }
  }

  // A departure that loses no work and leaves the wire busy while messages are live is one
  // tick of the fluid server.
  lemma DepartureIsFluid(b: Base, d: Base, f: Fluid)
    requires Owes(b, f) && Consistent(b) && Consistent(d)
    requires Backlog(d) == if b.buff > 0 then Backlog(b) - 1 else Backlog(b)
    requires d.gqueue != [] ==> d.buff > 0
    ensures Owes(d, FluidTick(f, 0))
  {
    TotalPositive(d.gqueue);
  }

  lemma ArrivalIsFluid(d: Base, ts: nat, length: nat, f: Fluid)
    requires Consistent(d) && length > 0 && Owes(d, FluidTick(f, 0))
    ensures Owes(Arrive(d, ts, length), FluidTick(f, length))
  {
    ArriveConsistent(d, ts, length);
  }

  lemma DepartureOwes(q: Pifo, f: Fluid)
    requires Valid(q) && Fed(q) && Owes(q.base, f)
    ensures Owes(Departure(q).base, FluidTick(f, 0)) && Consistent(Departure(q).base)
  {
    DepartureValid(q);
    var d := Departure(q);
    DepartureIsFluid(q.base, d.base, f);
  }

  lemma OfferedOwes(q: Pifo, ts: nat, length: nat, f: Fluid)
    requires Valid(q) && Fed(q) && Owes(q.base, f)
    ensures Owes(Offered(q, ts, length).base, FluidTick(f, length))
  {
    DepartureOwes(q, f);
    var b := Departure(q).base;
    if length > 0 {
      ArrivalIsFluid(b, ts, length, f);
    }
  }

  lemma {:induction false} PifoOwes(priorities: int, arrivals: seq<nat>)
    requires 8 <= priorities
    ensures Owes(Run(priorities, arrivals).base, FluidRun(arrivals))
  {
    if arrivals != [] {
      var last := |arrivals| - 1;
      PifoOwes(priorities, arrivals[..last]);
      var p := Run(priorities, arrivals[..last]);
      OfferedOwes(p, last, arrivals[last], FluidRun(arrivals[..last]));
      OfferedValid(p, last, arrivals[last]);
      StepValid(Offered(p, last, arrivals[last]));
    }
  }

  lemma {:induction false} IdealOwes(arrivals: seq<nat>)
    ensures Owes(IdealRun(arrivals).base, FluidRun(arrivals))
  {
    if arrivals != [] {
      var last := |arrivals| - 1;
      IdealOwes(arrivals[..last]);
      var p := IdealRun(arrivals[..last]);
      IdealDepartureValid(p);
      DepartureIsFluid(p.base, IdealDeparture(p).base, FluidRun(arrivals[..last]));
      if arrivals[last] > 0 {
        ArrivalIsFluid(IdealDeparture(p).base, last, arrivals[last], FluidRun(arrivals[..last]));
      }
    }
  }

  // Same backlog and same busy periods, tick by tick, for every arrival sequence.
  lemma SameBacklog(priorities: int, arrivals: seq<nat>)
    requires 8 <= priorities
    ensures var p := Run(priorities, arrivals).base; var s := IdealRun(arrivals).base;
      Backlog(p) == Backlog(s) && (p.buff > 0 <==> s.buff > 0)
  {
    PifoOwes(priorities, arrivals);
    IdealOwes(arrivals);
  }

  function Sum(a: seq<nat>): nat {
    if a == [] then 0 else Sum(a[..|a| - 1]) + a[|a| - 1]
  }

  // Every block that arrived has been sent in a busy tick or is still owed.
  lemma {:induction false} FluidConserves(arrivals: seq<nat>)
    ensures var f := FluidRun(arrivals); f.work >= 0 && Sum(arrivals) == f.work + f.served && (f.busy ==> f.work > 0)
  {
    if arrivals != [] {
      FluidConserves(arrivals[..|arrivals| - 1]);
    }
  }

  // The ticks so far that began with the wire of the queue busy.
  function BusyTicks(priorities: int, arrivals: seq<nat>): nat
    requires 8 <= priorities
  {
    if arrivals == [] then 0
    else
      var before := arrivals[..|arrivals| - 1];
      BusyTicks(priorities, before) + if Run(priorities, before).base.buff > 0 then 1 else 0
  }

  lemma {:induction false} BusyIsServed(priorities: int, arrivals: seq<nat>)
    requires 8 <= priorities
    ensures BusyTicks(priorities, arrivals) == FluidRun(arrivals).served
  {
    if arrivals != [] {
      var before := arrivals[..|arrivals| - 1];
      BusyIsServed(priorities, before);
      PifoOwes(priorities, before);
      hide Run;
    }
  }

  // In both queues: one block for each busy tick, and the backlog, make up all that arrived.
  lemma WorkIsConserved(priorities: int, arrivals: seq<nat>)
    requires 8 <= priorities
    ensures Sum(arrivals) == Backlog(Run(priorities, arrivals).base) + BusyTicks(priorities, arrivals)
    ensures Sum(arrivals) == Backlog(IdealRun(arrivals).base) + BusyTicks(priorities, arrivals)
  {
    hide Run, IdealRun, FluidRun, Backlog;
    FluidConserves(arrivals);
    BusyIsServed(priorities, arrivals);
    PifoOwes(priorities, arrivals);
    IdealOwes(arrivals);
  }
}
