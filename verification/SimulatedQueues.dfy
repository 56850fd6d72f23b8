/** The simulated queues as objects, and the simulation loop that drives them. */
module SimulatedQueues {
  import opened EntryBag
  import opened QueueBase
  import S = PifoSpec
  import R = QueueRuns

  class PifoNaive {
    var base: Base
    var hwqueue: Bag
    var backing: seq<S.Slot>
    var insert: Entry
    var scan: int
    var firstunsort: int
    var active: int
    const priorities: int

    function State(): S.Pifo
      reads this
    {
      S.Pifo(base, hwqueue, backing, insert, scan, firstunsort, active, priorities)
    }

    constructor (priorities: int)
      ensures State() == S.Initial(priorities)
    {
      this.priorities := priorities;
      base, hwqueue, backing := INITIAL_BASE, [], [];
      insert, scan, firstunsort, active := NULL_ENTRY, -1, -1, 0;
    }

    method Enqueue(e: Entry)
      modifies this
      ensures State() == S.Enqueue(old(State()), e)
    {
      hwqueue := Insert(hwqueue, e);
      active := active + 1;
    }

    method Dequeue() returns (ret: Entry)
      modifies this
      ensures (State(), ret) == S.Dequeue(old(State()))
    {
      ret := NULL_ENTRY;
      if hwqueue != [] {
        var head := hwqueue[0];
        ret := head;
        head := head.(remaining := head.remaining - PACKET_BLOCKS);
        hwqueue := hwqueue[1..];
        if head.remaining > 0 {
          base := base.(buff := PACKET_BLOCKS);
          hwqueue := Insert(hwqueue, head);
        } else {
          base := base.(buff := head.remaining + PACKET_BLOCKS);
          active := active - 1;
        }
      }
    }

    method Arrival(ts: nat, length: nat)
      modifies this
      ensures State() == S.Arrival(old(State()), ts, length)
    {
      var entry := Arriving(base, ts, length);
      base := Arrive(base, ts, length);
      Enqueue(entry);
    }

    method Departure(ts: nat)
      requires S.Accounted(State())
      modifies this
      ensures State() == S.Departure(old(State()))
    {
      if base.buff > 0 {
        base := base.(buff := base.buff - 1);
      }
      if base.buff != 0 {
        return;
      }
      if active == 0 {
        return;
      }
      var entry := Dequeue();
      base := Account(base, entry);
    }

    method Step()
      requires S.Indexed(State())
      modifies this
      ensures State() == S.Step(old(State()))
    {
      ghost var q0 := State();
      if scan == -1 && firstunsort != -1 {
        var missort := backing[firstunsort];
        assert missort.ideal == false;
        backing := S.RemoveSlot(backing, firstunsort);
        insert := missort.entry;
        scan := firstunsort;
        firstunsort := -1;
      }
      ghost var q1 := State();
      assert q1 == S.Resume(q0);
      SortOne();
      ghost var q2 := State();
      MoveHead();
      ghost var q3 := State();
      TakeLast();
      assert State() == S.Spill(S.Refill(S.Advance(S.Resume(q0))));
    }

    // The self-sorting vector's turn: one comparison.
    method SortOne()
      requires S.Indexed(State())
      modifies this`backing, this`insert, this`scan, this`firstunsort
      ensures State() == S.Advance(old(State()))
    {
      if scan != -1 {
        if scan >= |backing| {
          backing := S.InsertSlot(backing, scan, S.Slot(insert, true));
          scan := -1;
        } else {
          var compare := backing[scan];
          if Less(insert, compare.entry) {
            if compare.ideal {
              backing := S.InsertSlot(backing, scan, S.Slot(insert, true));
              firstunsort := if scan <= firstunsort then firstunsort + 1 else firstunsort;
              scan := -1;
            } else {
              backing := S.RemoveSlot(backing, scan);
              backing := S.InsertSlot(backing, scan, S.Slot(insert, false));
              insert := compare.entry;
              firstunsort := if scan < firstunsort || firstunsort == -1 then scan else firstunsort;
              scan := scan + 1;
            }
          } else {
            scan := scan + 1;
          }
        }
      }
    }

    // Push the head of the vector into the sorted queue if there is room or it belongs there.
    method MoveHead()
      requires S.Indexed(State())
      modifies this`backing, this`hwqueue, this`scan, this`firstunsort
      ensures State() == S.Refill(old(State()))
    {
      if backing != [] && (|hwqueue| <= priorities + 1 - 8 || Less(backing[0].entry, hwqueue[priorities - 8])) {
        var head := backing[0];
        backing := backing[1..];
        hwqueue := Insert(hwqueue, head.entry);
        firstunsort := if firstunsort < 0 then firstunsort else firstunsort - 1;
        scan := if scan <= 0 then scan else scan - 1;
      }
    }

    // Start carrying the largest entry of an overfull sorted queue.
    method TakeLast()
      requires S.Indexed(State())
      modifies this`backing, this`hwqueue, this`insert, this`scan, this`firstunsort
      ensures State() == S.Spill(old(State()))
    {
      if |hwqueue| >= priorities + 1 {
        if scan != -1 {
          var csize := |backing|;
          backing := S.InsertSlot(backing, scan, S.Slot(insert, scan == csize));
          firstunsort := if scan != csize && (scan < firstunsort || firstunsort == -1) then scan else firstunsort;
        }
        insert := hwqueue[|hwqueue| - 1];
        hwqueue := hwqueue[..|hwqueue| - 1];
        scan := 0;
      }
    }
  }

  class IdealQueue {
    var base: Base
    var hwqueue: Bag

    function State(): R.Ideal
      reads this
    {
      R.Ideal(base, hwqueue)
    }

    constructor ()
      ensures State() == R.INITIAL_IDEAL
    {
      base, hwqueue := INITIAL_BASE, [];
    }

    method Dequeue() returns (ret: Entry)
      modifies this
      ensures var v := Serve(old(hwqueue), old(base.buff));
        ret == v.entry && hwqueue == v.rest && base == old(base).(buff := v.buff)
    {
      ret := NULL_ENTRY;
      if hwqueue != [] {
        var head := hwqueue[0];
        ret := head;
        head := head.(remaining := head.remaining - PACKET_BLOCKS);
        hwqueue := hwqueue[1..];
        if head.remaining > 0 {
          base := base.(buff := PACKET_BLOCKS);
          hwqueue := Insert(hwqueue, head);
        } else {
          base := base.(buff := head.remaining + PACKET_BLOCKS);
        }
      }
    }

    method Arrival(ts: nat, length: nat)
      modifies this
      ensures State() == R.IdealArrival(old(State()), ts, length)
    {
      var entry := Arriving(base, ts, length);
      base := Arrive(base, ts, length);
      hwqueue := Insert(hwqueue, entry);
    }

    method Departure(ts: nat)
      requires hwqueue != [] ==> base.gqueue != []
      modifies this
      ensures State() == R.IdealDeparture(old(State()))
    {
      if base.buff > 0 {
        base := base.(buff := base.buff - 1);
      }
      if base.buff != 0 || hwqueue == [] {
        return;
      }
      var entry := Dequeue();
      base := Account(base, entry);
    }
  }

  // The main loop: departure, then the tick's arrival if there is one, then a step.
  method SimulatePifo(priorities: int, arrivals: seq<nat>) returns (queue: PifoNaive)
    requires 8 <= priorities
    ensures fresh(queue) && queue.State() == R.Run(priorities, arrivals)
  {
    queue := new PifoNaive(priorities);
    for ts := 0 to |arrivals|
      invariant fresh(queue)
      invariant queue.State() == R.Run(priorities, arrivals[..ts])
    {
      assert arrivals[..ts + 1][..ts] == arrivals[..ts];
      R.OfferedValid(queue.State(), ts, arrivals[ts]);
      queue.Departure(ts);
      if arrivals[ts] > 0 {
        queue.Arrival(ts, arrivals[ts]);
      }
      queue.Step();
    }
    assert arrivals[..|arrivals|] == arrivals;
  }

  method SimulateIdeal(arrivals: seq<nat>) returns (queue: IdealQueue)
    ensures fresh(queue) && queue.State() == R.IdealRun(arrivals)
  {
    queue := new IdealQueue();
    for ts := 0 to |arrivals|
      invariant fresh(queue)
      invariant queue.State() == R.IdealRun(arrivals[..ts])
    {
      assert arrivals[..ts + 1][..ts] == arrivals[..ts];
      queue.Departure(ts);
      if arrivals[ts] > 0 {
        queue.Arrival(ts, arrivals[ts]);
      }
    }
    assert arrivals[..|arrivals|] == arrivals;
  }
}
