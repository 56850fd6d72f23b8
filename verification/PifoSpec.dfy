/** The small sorted queue backed by a self-sorting vector, one pure function per stage of a tick. */
module PifoSpec {
  import opened EntryBag
  import opened QueueBase

  // A backing slot, and whether the sorter believes its entry is in its final place.
  datatype Slot = Slot(entry: Entry, ideal: bool)

  // `scan` is the slot the carried entry `insert` is compared with next, -1 when nothing is carried.
  // `firstunsort` is a slot known to be out of place, -1 when none is remembered.
  datatype Pifo = Pifo(base: Base, hwqueue: Bag, backing: seq<Slot>, insert: Entry,
                       scan: int, firstunsort: int, active: int, priorities: int)

  function Initial(priorities: int): Pifo {
    Pifo(INITIAL_BASE, [], [], NULL_ENTRY, -1, -1, 0, priorities)
  }

  // The indices the stages dereference are in range, and the remembered slot is not ideal.
  predicate Indexed(q: Pifo) {
    && 8 <= q.priorities
    && -1 <= q.scan <= |q.backing|
    && (q.firstunsort == -1 || (0 <= q.firstunsort < |q.backing| && !q.backing[q.firstunsort].ideal))
  }

  function InsertSlot(b: seq<Slot>, i: nat, s: Slot): (r: seq<Slot>)
    requires i <= |b|
  {
    b[..i] + [s] + b[i..]
  }

  function RemoveSlot(b: seq<Slot>, i: nat): (r: seq<Slot>)
    requires i < |b|
  {
    b[..i] + b[i + 1..]
  }

  /* The queue interface. */

  function Enqueue(q: Pifo, e: Entry): Pifo {
    q.(hwqueue := Insert(q.hwqueue, e), active := q.active + 1)
  }

  function Dequeue(q: Pifo): (Pifo, Entry) {
    var s := Serve(q.hwqueue, q.base.buff);
    (q.(hwqueue := s.rest, base := q.base.(buff := s.buff), active := if s.completes then q.active - 1 else q.active),
     s.entry)
  }

  function Arrival(q: Pifo, ts: nat, length: nat): Pifo {
    Enqueue(q.(base := Arrive(q.base, ts, length)), Arriving(q.base, ts, length))
  }

  // A departure may only look at the reference multiset when there is a live message in it.
  ghost predicate Accounted(q: Pifo) {
    q.active != 0 ==> q.base.gqueue != []
  }

  function Departure(q: Pifo): Pifo
    requires Accounted(q)
  {
    var q0 := q.(base := CountDown(q.base));
    if q0.base.buff != 0 || q0.active == 0 then q0
    else Dispatch(q0)
  }

  function Dispatch(q: Pifo): Pifo
    requires q.base.gqueue != []
  {
    var (q1, entry) := Dequeue(q);
    q1.(base := Account(q1.base, entry))
  }

  /* The stages of a step. */

  // Nothing is carried but a misplaced slot is remembered: pick its entry up.
  function Resume(q: Pifo): (r: Pifo)
    requires Indexed(q)
    ensures Indexed(r)
  {
    if q.scan == -1 && q.firstunsort != -1 then
      q.(backing := RemoveSlot(q.backing, q.firstunsort), insert := q.backing[q.firstunsort].entry,
         scan := q.firstunsort, firstunsort := -1)
    else q
  }

  // Compare the carried entry with one slot.
  function Advance(q: Pifo): (r: Pifo)
    requires Indexed(q)
    ensures Indexed(r)
  {
    if q.scan == -1 then q
    else if q.scan >= |q.backing| then
      q.(backing := InsertSlot(q.backing, q.scan, Slot(q.insert, true)), scan := -1)
    else if Less(q.insert, q.backing[q.scan].entry) then
      if q.backing[q.scan].ideal then
        q.(backing := InsertSlot(q.backing, q.scan, Slot(q.insert, true)),
           firstunsort := if q.scan <= q.firstunsort then q.firstunsort + 1 else q.firstunsort,
           scan := -1)
      else
        q.(backing := InsertSlot(RemoveSlot(q.backing, q.scan), q.scan, Slot(q.insert, false)),
           insert := q.backing[q.scan].entry,
           firstunsort := if q.scan < q.firstunsort || q.firstunsort == -1 then q.scan else q.firstunsort,
           scan := q.scan + 1)
    else q.(scan := q.scan + 1)
  }

  predicate WantsRefill(q: Pifo)
    requires 8 <= q.priorities
  {
    q.backing != [] &&
    (|q.hwqueue| <= q.priorities + 1 - 8 || Less(q.backing[0].entry, q.hwqueue[q.priorities - 8]))
  }

  // Move the head of the vector to the sorted queue.
  function Refill(q: Pifo): (r: Pifo)
    requires Indexed(q)
    ensures Indexed(r)
  {
    if WantsRefill(q) then
      q.(backing := q.backing[1..], hwqueue := Insert(q.hwqueue, q.backing[0].entry),
         firstunsort := if q.firstunsort < 0 then q.firstunsort else q.firstunsort - 1,
         scan := if q.scan <= 0 then q.scan else q.scan - 1)
    else q
  }

  // Put a carried entry down where it is.
  function PutDown(q: Pifo): (r: Pifo)
    requires Indexed(q)
    ensures Indexed(r.(scan := -1))
  {
    if q.scan != -1 then
      q.(backing := InsertSlot(q.backing, q.scan, Slot(q.insert, q.scan == |q.backing|)),
         firstunsort := if q.scan != |q.backing| && (q.scan < q.firstunsort || q.firstunsort == -1) then q.scan
                        else q.firstunsort)
    else q
  }

  // The sorted queue is over its size: carry its largest entry into the vector.
  function Spill(q: Pifo): (r: Pifo)
    requires Indexed(q)
    ensures Indexed(r)
  {
    if |q.hwqueue| >= q.priorities + 1 then
      var p := PutDown(q);
      var last := |p.hwqueue| - 1;
      p.(insert := p.hwqueue[last], hwqueue := p.hwqueue[..last], scan := 0)
    else q
  }

  function Step(q: Pifo): (r: Pifo)
    requires Indexed(q)
    ensures Indexed(r)
  {
    Spill(Refill(Advance(Resume(q))))
  }

  /* Every entry the structure holds, wherever it is. */

  function Entries(b: seq<Slot>): (r: Bag) {
    seq(|b|, i requires 0 <= i < |b| => b[i].entry)
  }

  ghost function Carried(q: Pifo): multiset<Entry> {
    if q.scan == -1 then multiset{} else multiset{q.insert}
  }

  ghost function Live(q: Pifo): multiset<Entry> {
    multiset(q.hwqueue) + multiset(Entries(q.backing)) + Carried(q)
  }

  // A slot flagged ideal is smaller than everything behind it, and than the entry
  // carried past it.
  ghost predicate IdealOrder(q: Pifo) {
    && (forall i, j :: 0 <= i < j < |q.backing| && q.backing[i].ideal ==> Less(q.backing[i].entry, q.backing[j].entry))
    && (forall i :: 0 <= i < q.scan && i < |q.backing| && q.backing[i].ideal ==> Less(q.backing[i].entry, q.insert))
  }

  ghost predicate Valid(q: Pifo) {
    && Consistent(q.base)
    && Indexed(q)
    && Sorted(q.hwqueue)
    && IdealOrder(q)
    && Live(q) == multiset(q.base.gqueue)
    && q.active == |q.base.gqueue|
  }

  // Messages wait only behind a sorted queue that has something to send.
  ghost predicate Fed(q: Pifo) {
    q.active > 0 ==> q.hwqueue != []
  }
}
