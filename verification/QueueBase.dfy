/** State and accounting shared by the simulated queues: the reference multiset of live
    messages, the service countdown and the statistics kept per departure. */
module QueueBase {
  import opened EntryBag

  datatype Base = Base(buff: int, nextId: nat, gqueue: Bag,
                       packets: nat, comps: nat, pktinacc: nat, underflow: nat)

  const INITIAL_BASE := Base(0, 0, [], 0, 0, 0, 0)

  // The entry a message of the given length gets when it arrives.
  function Arriving(b: Base, ts: nat, length: nat): Entry {
    Entry(ts, b.nextId, length, length, false)
  }

  function Arrive(b: Base, ts: nat, length: nat): Base {
    b.(nextId := b.nextId + 1, gqueue := Insert(b.gqueue, Arriving(b, ts, length)))
  }

  function CountDown(b: Base): Base {
    if b.buff > 0 then b.(buff := b.buff - 1) else b
  }

  /* Serving the head of a hardware queue. */

  datatype Service = Service(entry: Entry, rest: Bag, buff: int, completes: bool)

  function Serve(hwqueue: Bag, buff: int): Service {
    if hwqueue == [] then Service(NULL_ENTRY, [], buff, false)
    else
      var head := hwqueue[0].(remaining := hwqueue[0].remaining - PACKET_BLOCKS);
      if head.remaining > 0 then Service(hwqueue[0], Insert(hwqueue[1..], head), PACKET_BLOCKS, false)
      else Service(hwqueue[0], hwqueue[1..], head.remaining + PACKET_BLOCKS, true)
  }

  // What a departure records about the entry the queue handed out.
  function Account(b: Base, entry: Entry): Base
    requires entry.length != 0 ==> b.gqueue != []
  {
    if entry.length == 0 then b.(underflow := b.underflow + 1)
    else
      var late := if entry.remaining > b.gqueue[0].remaining then 1 else 0;
      var b' := b.(packets := b.packets + 1, pktinacc := b.pktinacc + late, gqueue := Erase(b.gqueue, entry));
      if entry.remaining - PACKET_BLOCKS <= 0 then b'.(comps := b.comps + 1)
      else b'.(gqueue := Insert(b'.gqueue, entry.(remaining := entry.remaining - PACKET_BLOCKS)))
  }

  /* The invariant of the shared part. */

  ghost predicate Positive(b: Bag) {
    forall e :: e in b ==> e.remaining > 0 && e.length > 0
  }

  ghost predicate Consistent(b: Base) {
    && Sorted(b.gqueue) && DistinctIds(b.gqueue) && Positive(b.gqueue)
    && (forall e :: e in b.gqueue ==> e.id < b.nextId)
    && 0 <= b.buff <= PACKET_BLOCKS
    && b.underflow == 0
    && b.comps + |b.gqueue| == b.nextId
  }

  // Blocks still owed to the wire: the packet in flight and the rest of every live message.
  function Backlog(b: Base): int {
    b.buff + Total(b.gqueue)
  }

  lemma ArriveConsistent(b: Base, ts: nat, length: nat)
    requires Consistent(b) && length > 0
    ensures Consistent(Arrive(b, ts, length))
    ensures Backlog(Arrive(b, ts, length)) == Backlog(b) + length
    ensures multiset(Arrive(b, ts, length).gqueue) == multiset(b.gqueue) + multiset{Arriving(b, ts, length)}
  {
    var e := Arriving(b, ts, length);
    InsertBag(b.gqueue, e);
    InsertKeepsDistinct(b.gqueue, e);
    InsertMembers(b.gqueue, e);
  }

  lemma InsertMembers(b: Bag, e: Entry)
    ensures forall d :: d in Insert(b, e) <==> d in b || d == e
  {
    InsertBag(b, e);
    forall d ensures d in Insert(b, e) <==> d in b || d == e {
      assert d in multiset(Insert(b, e)) <==> d in multiset(b) || d == e;
    }
  }

  // A departure that hands out a live entry and sets the countdown as Serve does keeps the
  // account consistent, and moves blocks from the queue to the wire without losing any.
  lemma AccountConsistent(b: Base, entry: Entry)
    requires Consistent(b) && b.buff == 0 && entry in b.gqueue
    ensures var sent := if entry.remaining > PACKET_BLOCKS then PACKET_BLOCKS else entry.remaining;
      var b' := Account(b.(buff := sent), entry);
      && Consistent(b')
      && Backlog(b') == Backlog(b)
      && b'.buff > 0
      && |b'.gqueue| == |b.gqueue| - (if entry.remaining > PACKET_BLOCKS then 0 else 1)
      && multiset(b'.gqueue) == multiset(b.gqueue) - multiset{entry}
           + (if entry.remaining > PACKET_BLOCKS then multiset{entry.(remaining := entry.remaining - PACKET_BLOCKS)}
              else multiset{})
  {
    EraseBag(b.gqueue, entry);
    if entry.remaining > PACKET_BLOCKS {
      var rest := Erase(b.gqueue, entry);
      var e := entry.(remaining := entry.remaining - PACKET_BLOCKS);
      InsertBag(rest, e);
      InsertKeepsDistinct(rest, e);
      InsertMembers(rest, e);
    }
  }
}
