/** Per-thread circular trace buffers, and the loop that prints them all. */
module TimeTrace {
  import opened Arith
  import opened TraceMerge
  import opened Options

  const BUFFER_SIZE: nat := 0x1_0000

  // The events a buffer still prints: one less than it has room for.
  function Retained(recorded: Trace): (q: Trace)
    ensures |q| == if |recorded| < BUFFER_SIZE then |recorded| else BUFFER_SIZE - 1
  {
    if |recorded| < BUFFER_SIZE then recorded else recorded[|recorded| - (BUFFER_SIZE - 1)..]
  }

  // Positions less than a buffer apart share a slot only if they are the same.
  lemma SameSlot(p: nat, q: nat)
    requires p <= q < p + BUFFER_SIZE
    ensures p % BUFFER_SIZE == q % BUFFER_SIZE <==> p == q
  {
    if p % BUFFER_SIZE == q % BUFFER_SIZE {
      assert q - p == (q / BUFFER_SIZE - p / BUFFER_SIZE) * BUFFER_SIZE;
      MulOutgrows(q / BUFFER_SIZE - p / BUFFER_SIZE, BUFFER_SIZE);
    }
  }

  lemma NextSlot(p: nat)
    ensures (p % BUFFER_SIZE + 1) % BUFFER_SIZE == (p + 1) % BUFFER_SIZE
  {
    ModPlus(p, 1, BUFFER_SIZE);
  }

  class Buffer {
    const events: array<Option<Event>>  // None: no format string
    var nextIndex: nat
    ghost var recorded: Trace           // everything ever recorded

    // Slot `p % BUFFER_SIZE` holds the event recorded at position `p`, for the last
    // BUFFER_SIZE positions; slots never used are empty.
    ghost predicate Valid()
      reads this, events
    {
      var n := |recorded|;
      && events.Length == BUFFER_SIZE && nextIndex == n % BUFFER_SIZE
      && (forall p :: 0 <= p < n && n - p <= BUFFER_SIZE ==> Holds(p))
      && (forall j :: n <= j < BUFFER_SIZE ==> events[j] == None)
    }

    ghost predicate Holds(p: nat)
      requires events.Length == BUFFER_SIZE && p < |recorded|
      reads this, events
    {
      events[p % BUFFER_SIZE] == Some(recorded[p])
    }

    constructor ()
      ensures Valid() && recorded == [] && fresh(events)
    {
      events := new Option<Event>[BUFFER_SIZE](_ => None);
      nextIndex, recorded := 0, [];
    }

    // Nothing is recorded while the traces are being printed.
    method Record(frozen: bool, e: Event)
      requires Valid()
      modifies this, events
      ensures Valid() && recorded == if frozen then old(recorded) else old(recorded) + [e]
    {
      if frozen {
        return;
      }
      var index := nextIndex;
      ghost var n := |recorded|;
      nextIndex := (nextIndex + 1) % BUFFER_SIZE;
      events[index] := Some(e);
      recorded := recorded + [e];
      NextSlot(n);
      forall p | 0 <= p < n + 1 && n + 1 - p <= BUFFER_SIZE ensures Holds(p) {
        if p < n {
          assert old(Holds(p));
          SameSlot(p, n);
        }
      }
      forall j | n + 1 <= j < BUFFER_SIZE ensures events[j] == None {
        DivSmall(n, BUFFER_SIZE);
      }
    }

    // The slot of the first event to print.
    method First() returns (index: nat)
      requires Valid()
      ensures index == (|recorded| - |Retained(recorded)|) % BUFFER_SIZE
    {
      ghost var n := |recorded|;
      index := (nextIndex + 1) % BUFFER_SIZE;
      NextSlot(n);
      if n >= BUFFER_SIZE {
        assert Holds(n + 1 - BUFFER_SIZE);
        DivOnce(n + 1 - BUFFER_SIZE, BUFFER_SIZE);
      } else if n + 1 == BUFFER_SIZE {
        assert Holds(0);
        DivMod(n + 1, BUFFER_SIZE, 1, 0);
      } else {
        DivSmall(n + 1, BUFFER_SIZE);
      }
      if events[index] == None {
        index := 0;
      }
    }

    // What is found at a position that may still be printed.
    lemma At(p: nat)
      requires Valid() && p <= |recorded| < p + BUFFER_SIZE
      ensures events.Length == BUFFER_SIZE && p % BUFFER_SIZE < BUFFER_SIZE
      ensures p % BUFFER_SIZE == nextIndex <==> p == |recorded|
      ensures p < |recorded| ==> events[p % BUFFER_SIZE] == Some(recorded[p])
    {
      SameSlot(p, |recorded|);
      assert p < |recorded| ==> Holds(p);
    }
  }

  /* Printing. */

  ghost function Logs(buffers: seq<Buffer>): (logs: seq<Trace>)
    reads buffers
  {
    seq(|buffers|, i requires 0 <= i < |buffers| reads buffers => buffers[i].recorded)
  }

  // Positions in the traces that are still in the buffers.
  ghost predicate InReach(logs: seq<Trace>, pos: seq<nat>) {
    |logs| == |pos| && forall i :: 0 <= i < |logs| ==> pos[i] <= |logs[i]| < pos[i] + BUFFER_SIZE
  }

  // `current` has the slots of these positions.
  ghost predicate Slots(pos: seq<nat>, current: seq<nat>) {
    |pos| == |current| && forall i :: 0 <= i < |pos| ==> current[i] == pos[i] % BUFFER_SIZE
  }

  ghost predicate AllValid(buffers: seq<Buffer>)
    reads buffers, set b | b in buffers :: b.events
  {
    forall b :: b in buffers ==> b.Valid()
  }

  // What is left of the traces from these positions on.
  ghost function From(logs: seq<Trace>, pos: seq<nat>): (qs: seq<Trace>)
    requires InReach(logs, pos)
  {
    seq(|logs|, i requires 0 <= i < |logs| => logs[i][pos[i]..])
  }

  ghost function AllRetained(logs: seq<Trace>): (qs: seq<Trace>) {
    seq(|logs|, i requires 0 <= i < |logs| => Retained(logs[i]))
  }

  // The oldest event of each buffer.
  method FindFirst(buffers: seq<Buffer>) returns (current: seq<nat>, ghost pos: seq<nat>)
    requires AllValid(buffers)
    ensures InReach(Logs(buffers), pos) && Slots(pos, current) && From(Logs(buffers), pos) == AllRetained(Logs(buffers))
  {
    current, pos := [], [];
    for i := 0 to |buffers|
      invariant |current| == |pos| == i
      invariant forall j :: 0 <= j < i ==>
        pos[j] == |buffers[j].recorded| - |Retained(buffers[j].recorded)| && current[j] == pos[j] % BUFFER_SIZE
    {
      var index := buffers[i].First();
      current := current + [index];
      pos := pos + [|buffers[i].recorded| - |Retained(buffers[i].recorded)|];
    }
  }

  lemma StartOfNone()
    ensures StartTime([]) == 0
  {
  }

  lemma StartStep(qs: seq<Trace>, i: nat)
    requires i < |qs|
    ensures StartTime(qs[..i + 1])
         == if Oldest(qs[i]) > StartTime(qs[..i]) then Oldest(qs[i]) else StartTime(qs[..i])
  {
    assert qs[..i + 1][..i] == qs[..i];
  }

  // The latest of the oldest times. A buffer has nothing to print only if nothing was recorded.
  method FindStart(buffers: seq<Buffer>, current: seq<nat>, ghost pos: seq<nat>) returns (start: nat)
    requires AllValid(buffers) && InReach(Logs(buffers), pos) && Slots(pos, current)
    requires forall i :: 0 <= i < |buffers| && pos[i] == |buffers[i].recorded| ==> pos[i] == 0
    ensures start == StartTime(From(Logs(buffers), pos))
  {
    hide StartTime;
    start := 0;
    ghost var qs := From(Logs(buffers), pos);
    StartOfNone();
    for i := 0 to |buffers|
      invariant start == StartTime(qs[..i])
    {
      buffers[i].At(pos[i]);
      StartStep(qs, i);
      var event := buffers[i].events[current[i]];
      if event.Some? && event.value.timestamp > start {
        start := event.value.timestamp;
      }
    }
    assert qs[..|buffers|] == qs;
  }

  lemma SkipStep(log: Trace, q: nat, start: nat)
    requires q <= |log|
    ensures SkipBefore(log[q..], start)
         == if q < |log| && log[q].timestamp < start then SkipBefore(log[q + 1..], start) else log[q..]
  {
    assert q < |log| ==> log[q..][1..] == log[q + 1..];
  }

  // Past the events before the starting time.
  method Skip(b: Buffer, index: nat, start: nat, ghost p: nat) returns (r: nat, ghost q: nat)
    requires b.Valid() && p <= |b.recorded| < p + BUFFER_SIZE && index == p % BUFFER_SIZE
    ensures p <= q <= |b.recorded| && r == q % BUFFER_SIZE
    ensures b.recorded[q..] == SkipBefore(b.recorded[p..], start)
  {
    hide Buffer.Valid, Buffer.Holds, SkipBefore;
    r, q := index, p;
    ghost var log := b.recorded;
    b.At(q);
    while b.events[r].Some? && b.events[r].value.timestamp < start && r != b.nextIndex
      invariant p <= q <= |log| && r == q % BUFFER_SIZE < b.events.Length
      invariant r == b.nextIndex <==> q == |log|
      invariant q < |log| ==> b.events[r] == Some(log[q])
      invariant SkipBefore(log[q..], start) == SkipBefore(log[p..], start)
      decreases |log| - q
    {
      assert q < |log| && log[q].timestamp < start;
      SkipStep(log, q, start);
      NextSlot(q);
      r, q := (r + 1) % BUFFER_SIZE, q + 1;
      b.At(q);
    }
    assert q == |log| || log[q].timestamp >= start;
    SkipStep(log, q, start);
  }

  function AllFrom(qs: seq<Trace>, start: nat): (r: seq<Trace>) {
    seq(|qs|, i requires 0 <= i < |qs| => SkipBefore(qs[i], start))
  }

  method SkipAll(buffers: seq<Buffer>, before: seq<nat>, start: nat, ghost was: seq<nat>)
    returns (current: seq<nat>, ghost pos: seq<nat>)
    requires AllValid(buffers) && InReach(Logs(buffers), was) && Slots(was, before)
    ensures InReach(Logs(buffers), pos) && Slots(pos, current)
    ensures From(Logs(buffers), pos) == AllFrom(From(Logs(buffers), was), start)
  {
    hide Buffer.Valid, Buffer.Holds, SkipBefore;
    ghost var logs := Logs(buffers);
    ghost var qs := From(logs, was);
    current, pos := [], [];
    for i := 0 to |buffers|
      invariant |current| == |pos| == i
      invariant forall j :: 0 <= j < i ==> was[j] <= pos[j] <= |logs[j]| && current[j] == pos[j] % BUFFER_SIZE
      invariant forall j :: 0 <= j < i ==> logs[j][pos[j]..] == SkipBefore(qs[j], start)
    {
      var index;
      ghost var p;
      assert buffers[i] in buffers && qs[i] == logs[i][was[i]..];
      index, p := Skip(buffers[i], before[i], start, was[i]);
      current, pos := current + [index], pos + [p];
    }
  }

  // The buffer with the earliest event to print, -1 if nothing is left.
  method FindEarliest(buffers: seq<Buffer>, current: seq<nat>, ghost pos: seq<nat>) returns (buf: int)
    requires AllValid(buffers) && InReach(Logs(buffers), pos) && Slots(pos, current)
    ensures buf == Earliest(From(Logs(buffers), pos))
  {
    buf := -1;
    var earliest := MAX_TIME;
    ghost var qs := From(Logs(buffers), pos);
    for i := 0 to |buffers|
      invariant buf == Earliest(qs[..i])
      invariant earliest == if buf < 0 then MAX_TIME else qs[buf][0].timestamp
    {
      buffers[i].At(pos[i]);
      if current[i] != buffers[i].nextIndex {
        var event := buffers[i].events[current[i]];
        if event.Some? && event.value.timestamp < earliest {
          buf, earliest := i, event.value.timestamp;
        }
      }
      EarliestStep(qs, i);
    }
    assert qs[..|buffers|] == qs;
  }

  lemma EarliestStep(qs: seq<Trace>, i: nat)
    requires i < |qs|
    ensures Earliest(qs[..i + 1]) ==
      (var r := Earliest(qs[..i]);
       if qs[i] != [] && qs[i][0].timestamp < (if r < 0 then MAX_TIME else qs[r][0].timestamp) then i else r)
  {
    assert qs[..i + 1][..i] == qs[..i];
  }

  // The earliest event of each round, until every buffer is at its end.
  method PrintMerged(buffers: seq<Buffer>, from: seq<nat>, ghost was: seq<nat>) returns (out: seq<Line>)
    requires AllValid(buffers) && InReach(Logs(buffers), was) && Slots(was, from)
    ensures out == Merge(From(Logs(buffers), was))
  {
    hide Buffer.Valid, Buffer.Holds, Earliest;
    var current: seq<nat> := from;
    ghost var pos: seq<nat>, logs := was, Logs(buffers);
    out := [];
    while true
      invariant InReach(logs, pos) && Slots(pos, current)
      invariant out + Merge(From(logs, pos)) == Merge(From(logs, was))
      decreases Size(From(logs, pos))
    {
      ghost var qs := From(logs, pos);
      var buf := FindEarliest(buffers, current, pos);
      if buf == -1 {
        break;
      }
      SizeTail(qs, buf);
      Advance(logs, pos, current, buf);
      assert buffers[buf] in buffers && qs[buf] != [];
      buffers[buf].At(pos[buf]);
      out := out + [Line(buf, buffers[buf].events[current[buf]].value)];
      current := current[buf := (current[buf] + 1) % BUFFER_SIZE];
      pos := pos[buf := pos[buf] + 1];
    }
  }

  lemma Advance(logs: seq<Trace>, pos: seq<nat>, current: seq<nat>, i: nat)
    requires InReach(logs, pos) && Slots(pos, current) && i < |logs| && From(logs, pos)[i] != []
    ensures var next := pos[i := pos[i] + 1];
      && InReach(logs, next) && Slots(next, current[i := (current[i] + 1) % BUFFER_SIZE])
      && From(logs, next) == From(logs, pos)[i := From(logs, pos)[i][1..]]
  {
    NextSlot(pos[i]);
  }

  // Everything the buffers still hold from the starting time on, merged.
  method PrintInternal(buffers: seq<Buffer>) returns (start: nat, out: seq<Line>)
    requires AllValid(buffers)
    ensures start == StartTime(AllRetained(Logs(buffers)))
    ensures out == Merge(AllFrom(AllRetained(Logs(buffers)), start))
  {
    hide Buffer.Valid, Buffer.Holds, StartTime, Merge, SkipBefore, Slots;
    var current: seq<nat>;
    ghost var pos: seq<nat>;
    current, pos := FindFirst(buffers);
    ghost var logs := Logs(buffers);
    assert forall i :: 0 <= i < |logs| ==> From(logs, pos)[i] == Retained(logs[i]);
    start := FindStart(buffers, current, pos);
    current, pos := SkipAll(buffers, current, start, pos);
    out := PrintMerged(buffers, current, pos);
  }

  /* What is missing. */

  // Which of a thread's records are printed, by position: those from `from` on, up to `to`.
  function PrintFrom(log: Trace, start: nat): (from: nat)
    ensures from <= |log|
  {
    |log| - |SkipBefore(Retained(log), start)|
  }

  function PrintTo(log: Trace, start: nat): nat {
    PrintFrom(log, start) + |Printable(SkipBefore(Retained(log), start))|
  }

  // Of a thread's records, in order of time, exactly those are printed that the buffer still
  // holds and that are neither before the starting time nor at the largest time there is.
  lemma PrintedByPosition(logs: seq<Trace>, i: nat, k: nat)
    requires i < |logs| && Ordered(logs[i]) && k < |logs[i]|
    ensures var log, start := logs[i], StartTime(AllRetained(logs));
      && PrintTo(log, start) <= |log|
      && OfThread(Merge(AllFrom(AllRetained(logs), start)), i) == log[PrintFrom(log, start)..PrintTo(log, start)]
      && (PrintFrom(log, start) <= k < PrintTo(log, start) <==>
            k >= |log| - |Retained(log)| && start <= log[k].timestamp < MAX_TIME)
  {
    var qs := AllRetained(logs);
    MergeIsComplete(AllFrom(qs, StartTime(qs)), i);
    hide Merge, StartTime, SkipBefore, Printable, PrintFrom, PrintTo;
    LogPart(logs[i], StartTime(qs));
    LogPartAt(logs[i], StartTime(qs), k);
    assert qs[i] == Retained(logs[i]);
  }

  lemma LogPart(log: Trace, start: nat)
    ensures var from, to := PrintFrom(log, start), PrintTo(log, start);
      to <= |log| && Printable(SkipBefore(Retained(log), start)) == log[from..to]
  {
    hide SkipBefore, Printable;
    var gone := |log| - |Retained(log)|;
    assert Retained(log) == log[gone..];
    hide Retained;
    PrintedPart(log[gone..], start);
    SliceOfTail(log, gone, PrintFrom(log, start), PrintTo(log, start));
  }

  lemma SliceOfTail(log: Trace, gone: nat, from: nat, to: nat)
    requires gone <= from <= to <= |log|
    ensures log[gone..][from - gone..to - gone] == log[from..to]
  {
  }

  lemma LogPartAt(log: Trace, start: nat, k: nat)
    requires Ordered(log) && k < |log|
    ensures PrintFrom(log, start) <= k < PrintTo(log, start)
       <==> k >= |log| - |Retained(log)| && start <= log[k].timestamp < MAX_TIME
  {
    hide SkipBefore, Printable;
    var gone := |log| - |Retained(log)|;
    assert Retained(log) == log[gone..];
    hide Retained, Ordered;
    if k >= gone {
      OrderedTail(log, gone);
      PrintedAt(log[gone..], start, k - gone);
    }
  }

  // One event more than a buffer prints, all at one time: the first of them is at the starting
  // time and is not printed.
  lemma FirstOfManyIsMissing(first: Event, e: Event, log: Trace)
    requires first.timestamp == e.timestamp && first != e
    requires log == [first] + seq(BUFFER_SIZE - 1, _ => e)
    ensures var qs := AllRetained([log]); var start := StartTime(qs);
      start == log[0].timestamp && first !in OfThread(Merge(AllFrom(qs, start)), 0)
  {
    var qs := AllRetained([log]);
    assert qs == [Retained(log)] && qs[..0] == [];
    assert Retained(log) == log[1..] && Retained(log)[0] == e;
    assert StartTime(qs) == e.timestamp;
    hide StartTime, Retained;
    PrintedByPosition([log], 0, 0);
    var start := StartTime(qs);
    assert first !in log[PrintFrom(log, start)..PrintTo(log, start)] by {
      assert PrintFrom(log, start) >= 1;
    }
  }

  // An event later than the oldest one still held is held itself.
  lemma LaterIsRetained(log: Trace, k: nat)
    requires Ordered(log) && k < |log| && log[k].timestamp > Oldest(Retained(log))
    ensures log[k] in Retained(log)
    ensures Ordered(Retained(log))
  {
    var gone := |log| - |Retained(log)|;
    assert Retained(log) == log[gone..];
    assert k >= gone;
    assert log[k] == Retained(log)[k - gone];
  }

  lemma LaterIsKept(q: Trace, e: Event, start: nat)
    requires Ordered(q) && e in q && start <= e.timestamp < MAX_TIME
    ensures e in Printable(SkipBefore(q, start))
  {
    var k :| 0 <= k < |q| && q[k] == e;
    SkipIsExact(q, start, k);
    var kept := SkipBefore(q, start);
    assert kept[k - (|q| - |kept|)] == e;
    PrintableHas(kept, e);
  }

  // So everything recorded later than the starting time is printed, however much was overwritten.
  lemma NothingMissing(logs: seq<Trace>, i: nat, k: nat)
    requires i < |logs| && Ordered(logs[i]) && k < |logs[i]|
    ensures var qs := AllRetained(logs); var start := StartTime(qs); var e := logs[i][k];
      start < e.timestamp < MAX_TIME ==> e in OfThread(Merge(AllFrom(qs, start)), i)
  {
    hide Retained, SkipBefore, Merge;
    var qs, e := AllRetained(logs), logs[i][k];
    var start := StartTime(qs);
    if start < e.timestamp < MAX_TIME {
      assert qs[i] == Retained(logs[i]) && Oldest(qs[i]) <= start;
      LaterIsRetained(logs[i], k);
      LaterIsKept(qs[i], e, start);
      MergeIsComplete(AllFrom(qs, start), i);
    }
  }

  lemma {:induction false} PrintableHas(q: Trace, e: Event)
    requires Ordered(q) && e in q && e.timestamp < MAX_TIME
    ensures e in Printable(q)
  {
    if q[0] != e {
      PrintableHas(q[1..], e);
    }
  }
}
