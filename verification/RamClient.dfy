/** The fixed-width read and write ports of the segmented RAM, clocked together with it. */
module RamClient {
  import opened Options
  import opened RamPipeline
  import opened SegmentedRam
  import opened FlatRam

  const PENDING: nat := 6  // entries of the queue of reads inside the RAM

  // One-entry latches before and behind the RAM, the addresses of the reads inside it, the
  // two segments' read pipelines and memories.
  datatype State = State(inLatch: Option<RamAddr>, pending: seq<RamAddr>, outLatch: Option<Word>,
                         even: Pipe<Word>, odd: Pipe<Word>, wrLatch: Option<WriteReq>, banks: Banks)

  datatype Inputs = Inputs(read: Option<RamAddr>, ready: bool, write: Option<WriteReq>) {
    predicate Valid() {
      (read.Some? ==> read.value.Valid()) && (write.Some? ==> write.value.Valid())
    }
  }

  predicate Latched(s: State) {
    (s.inLatch.Some? ==> s.inLatch.value.Valid()) && (s.wrLatch.Some? ==> s.wrLatch.value.Valid())
    && forall a :: a in s.pending ==> a.Valid()
  }

  /* The handshakes of a cycle. */

  predicate Delivers(s: State, i: Inputs) {
    s.outLatch.Some? && i.ready
  }

  predicate OutReady(s: State, i: Inputs) {
    s.outLatch.None? || i.ready
  }

  predicate CmdReady(s: State, i: Inputs) {
    Accepts(s.even, OutReady(s, i)) && Accepts(s.odd, OutReady(s, i))
  }

  // The RAM's response moves to the output latch.
  predicate Fetches(s: State, i: Inputs)
    requires s.even != [] && s.odd != []
  {
    Offers(s.even) && Offers(s.odd) && OutReady(s, i)
  }

  predicate PendingReady(s: State, i: Inputs)
    requires s.even != [] && s.odd != []
  {
    |s.pending| < PENDING || Fetches(s, i)
  }

  // The latched read leaves for the RAM.
  predicate Sends(s: State, i: Inputs)
    requires s.even != [] && s.odd != []
  {
    s.inLatch.Some? && CmdReady(s, i) && PendingReady(s, i)
  }

  predicate TakesRead(s: State, i: Inputs)
    requires s.even != [] && s.odd != []
  {
    i.read.Some? && (s.inLatch.None? || (CmdReady(s, i) && PendingReady(s, i)))
  }

  /* The clock edge. */

  const ORIGIN := RamAddr(0, false, 0)

  // The word for the oldest pending address.
  function Response(s: State): Word
    requires s.even != [] && s.odd != [] && Latched(s) && Offers(s.even) && Offers(s.odd)
  {
    Assemble(if s.pending == [] then ORIGIN else s.pending[0], s.even[|s.even| - 1].value, s.odd[|s.odd| - 1].value)
  }

  // The commands put to the segments.
  function EvenRead(s: State): Option<Word>
    requires Latched(s)
  {
    if s.inLatch.Some? then Some(s.banks.even[s.inLatch.value.EvenRow()]) else None
  }

  function OddRead(s: State): Option<Word>
    requires Latched(s)
  {
    if s.inLatch.Some? then Some(s.banks.odd[s.inLatch.value.OddRow()]) else None
  }

  // A segment takes a valid command whenever it is ready itself.
  function Step(s: State, i: Inputs): State
    requires s.even != [] && s.odd != [] && Latched(s)
  {
    State(if TakesRead(s, i) then i.read else if Sends(s, i) then None else s.inLatch,
          (if Fetches(s, i) && s.pending != [] then s.pending[1..] else s.pending)
            + (if Sends(s, i) then [s.inLatch.value] else []),
          if Fetches(s, i) then Some(Response(s)) else if i.ready then None else s.outLatch,
          Clock(s.even, OutReady(s, i), EvenRead(s)),
          Clock(s.odd, OutReady(s, i), OddRead(s)),
          i.write,
          if s.wrLatch.Some? then WriteBanks(s.banks, s.wrLatch.value) else s.banks)
  }

  /* What is kept. */

  // The pending queue holds one address for each word in the pipelines, which move in step.
  ghost predicate Ok(s: State) {
    && s.even != [] && |s.even| <= PENDING && InStep(s.even, s.odd) && Latched(s)
    && |s.pending| == |Contents(s.even)| == |Contents(s.odd)|
  }

  function Words(ps: seq<RamAddr>, es: seq<Word>, os: seq<Word>): (w: seq<Word>)
    requires |ps| == |es| == |os| && forall a :: a in ps ==> a.Valid()
  {
    seq(|ps|, k requires 0 <= k < |ps| => Assemble(ps[k], es[k], os[k]))
  }

  // The words read and not yet handed out, oldest first.
  ghost function Flight(s: State): seq<Word>
    requires Ok(s)
  {
    Held(s.outLatch) + Words(s.pending, Contents(s.even), Contents(s.odd))
  }

  // Taken from the front if `taken`, then appended to.
  function Moved<T>(c: seq<T>, taken: bool, more: seq<T>): seq<T> {
    (if taken && c != [] then c[1..] else c) + more
  }

  // The queue of addresses never stops a read the RAM would accept.
  lemma SendsWhenReady(s: State, i: Inputs)
    requires Ok(s)
    ensures Sends(s, i) <==> s.inLatch.Some? && CmdReady(s, i)
    ensures Accepts(s.even, OutReady(s, i)) == Accepts(s.odd, OutReady(s, i)) && Offers(s.even) == Offers(s.odd)
  {
    ClockInStep(s.even, s.odd, OutReady(s, i), None, None);
    FullCount(s.even);
    hide InStep, Latched;
  }

  lemma PipeMoves(p: Pipe<Word>, ready: bool, read: Option<Word>)
    requires p != []
    ensures Contents(Clock(p, ready, read))
         == Moved(Contents(p), ready && Offers(p), if Accepts(p, ready) then Held(read) else [])
  {
    hide Contents, Clock, Accepts;
    ClockContents(p, ready, read);
  }

  // The three queues move alike.
  lemma QueuesMove(s: State, i: Inputs)
    requires Ok(s)
    ensures var t, f, d := Step(s, i), Fetches(s, i), Sends(s, i);
      && t.pending == Moved(s.pending, f, if d then [s.inLatch.value] else [])
      && Contents(t.even) == Moved(Contents(s.even), f, if d then [EvenRead(s).value] else [])
      && Contents(t.odd) == Moved(Contents(s.odd), f, if d then [OddRead(s).value] else [])
      && InStep(t.even, t.odd) && |t.even| == |s.even|
  {
    var r := OutReady(s, i);
    SendsWhenReady(s, i);
    ClockInStep(s.even, s.odd, r, EvenRead(s), OddRead(s));
    hide InStep, Contents, Clock, Accepts, Latched, RamAddr.Valid, Offers;
    PipeMoves(s.even, r, EvenRead(s));
    PipeMoves(s.odd, r, OddRead(s));
  }

  // What is fetched is the oldest word in flight inside the RAM.
  lemma FetchedWord(s: State, i: Inputs)
    requires Ok(s) && Fetches(s, i)
    ensures s.pending != [] && Response(s) == Words(s.pending, Contents(s.even), Contents(s.odd))[0]
  {
    ClockContents(s.even, true, None);
    ClockContents(s.odd, true, None);
    hide Contents, Clock, Accepts, Assemble;
  }

  lemma StepOk(s: State, i: Inputs)
    requires Ok(s) && i.Valid()
    ensures Ok(Step(s, i))
  {
    QueuesMove(s, i);
    StepLatched(s, i);
    hide Contents, Step, Latched, InStep, Sends, Fetches;
  }

  lemma StepLatched(s: State, i: Inputs)
    requires Ok(s) && i.Valid()
    ensures Latched(Step(s, i))
  {
    QueuesMove(s, i);
    hide Contents, Clock, InStep, WriteBanks, Sends, Fetches, Response;
  }

  // Words in flight leave in the order they were read; a read joins them with the 64 bytes the
  // memory holds at its address when it enters the RAM.
  lemma FlightMoves(s: State, i: Inputs)
    requires Ok(s) && i.Valid() && Ok(Step(s, i))
    ensures Delivers(s, i) ==> Flight(s) != [] && Flight(s)[0] == s.outLatch.value
    ensures Flight(Step(s, i))
        == Moved(Flight(s), Delivers(s, i), if Sends(s, i) then [ReadWord(s.banks, s.inLatch.value)] else [])
  {
    var t, f, d := Step(s, i), Fetches(s, i), Sends(s, i);
    QueuesMove(s, i);
    if f {
      FetchedWord(s, i);
    }
    var ws := Words(s.pending, Contents(s.even), Contents(s.odd));
    var more := if d then [ReadWord(s.banks, s.inLatch.value)] else [];
    WordsMove(s.pending, Contents(s.even), Contents(s.odd), f, s.inLatch, EvenRead(s), OddRead(s), d);
    assert t.outLatch == if f then Some(ws[0]) else if i.ready then None else s.outLatch;
    assert d ==> more == [Assemble(s.inLatch.value, EvenRead(s).value, OddRead(s).value)];
    hide Contents, Step, Latched, InStep, Sends, Words, Response, ReadWord, Moved, Ok, Assemble;
    assert Words(t.pending, Contents(t.even), Contents(t.odd)) == Moved(ws, f, more);
    LatchMoves(s.outLatch, t.outLatch, ws, f, i.ready, more);
  }

  lemma LatchMoves(
    before: Option<Word>, after: Option<Word>, ws: seq<Word>, fetches: bool, ready: bool, more: seq<Word>)
    requires fetches ==> ws != [] && (before.None? || ready)
    requires after == if fetches then Some(ws[0]) else if ready then None else before
    ensures Held(after) + Moved(ws, fetches, more) == Moved(Held(before) + ws, before.Some? && ready, more)
  {
    if fetches {
      assert ws == [ws[0]] + ws[1..];
    }
  }

  lemma WordsMove(ps: seq<RamAddr>, es: seq<Word>, os: seq<Word>, taken: bool, a: Option<RamAddr>, e: Option<Word>,
      o: Option<Word>, more: bool)
    requires |ps| == |es| == |os| && forall x :: x in ps ==> x.Valid()
    requires a.Some? == e.Some? == o.Some? && (a.Some? ==> a.value.Valid()) && (more ==> a.Some?)
    ensures Words(Moved(ps, taken, if more then [a.value] else []), Moved(es, taken, if more then [e.value] else []),
                  Moved(os, taken, if more then [o.value] else []))
         == Moved(Words(ps, es, os), taken, if more then [Assemble(a.value, e.value, o.value)] else [])
  {
    hide Assemble;
  }

  /* Whole runs. */

  // A read served from the memory as it was when the read entered the RAM.
  datatype Reading = Reading(addr: RamAddr, memory: Banks)

  // The reads accepted, those served, the words handed out, and the writes accepted.
  datatype Log = Log(asked: seq<RamAddr>, served: seq<Reading>, delivered: seq<Word>, writes: seq<WriteReq>)

  const EMPTY_LOG := Log([], [], [], [])

  function Note(s: State, log: Log, i: Inputs): Log
    requires s.even != [] && s.odd != []
  {
    Log(log.asked + (if TakesRead(s, i) then [i.read.value] else []),
        log.served + (if Sends(s, i) then [Reading(s.inLatch.value, s.banks)] else []),
        log.delivered + (if Delivers(s, i) then [s.outLatch.value] else []),
        log.writes + Held(i.write))
  }

  function Initial(depth: nat): State
    requires 0 < depth
  {
    State(None, [], None, seq(depth, _ => None), seq(depth, _ => None), None, Banks(ZERO_ROWS, ZERO_ROWS))
  }

  ghost function Run(s: State, ins: seq<Inputs>): (r: State)
    requires Ok(s) && forall i :: i in ins ==> i.Valid()
    ensures Ok(r)
  {
    if ins == [] then s
    else
      var n := |ins| - 1;
      var t := Run(s, ins[..n]);
      StepOk(t, ins[n]);
      Step(t, ins[n])
  }

  ghost function Noted(s: State, ins: seq<Inputs>): Log
    requires Ok(s) && forall i :: i in ins ==> i.Valid()
  {
    if ins == [] then EMPTY_LOG
    else
      var n := |ins| - 1;
      Note(Run(s, ins[..n]), Noted(s, ins[..n]), ins[n])
  }

  function Answers(served: seq<Reading>): (w: seq<Word>)
    requires forall r :: r in served ==> r.addr.Valid()
  {
    seq(|served|, k requires 0 <= k < |served| => ReadWord(served[k].memory, served[k].addr))
  }

  // The memory after writes in order.
  function AllWritten(m: Banks, writes: seq<WriteReq>): Banks
    requires forall w :: w in writes ==> w.Valid()
  {
    if writes == [] then m
    else WriteBanks(AllWritten(m, writes[..|writes| - 1]), writes[|writes| - 1])
  }

  // Served and asked for are the same addresses in the same order, up to the one still
  // latched; what was handed out and what is in flight are their answers; the memory is what
  // the writes make of it, up to the one still latched.
  ghost predicate Accounted(s: State, log: Log, before: Banks)
    requires Ok(s)
  {
    && (forall r :: r in log.served ==> r.addr.Valid()) && (forall w :: w in log.writes ==> w.Valid())
    && log.asked == Addresses(log.served) + Held(s.inLatch)
    && Answers(log.served) == log.delivered + Flight(s)
    && (s.wrLatch.Some? ==> log.writes != [] && log.writes[|log.writes| - 1] == s.wrLatch.value)
    && s.banks == AllWritten(before, if s.wrLatch.Some? then log.writes[..|log.writes| - 1] else log.writes)
  }

  function Addresses(served: seq<Reading>): (a: seq<RamAddr>) {
    seq(|served|, k requires 0 <= k < |served| => served[k].addr)
  }

  lemma NoteAsked(s: State, log: Log, i: Inputs)
    requires Ok(s) && log.asked == Addresses(log.served) + Held(s.inLatch)
    ensures var t, l := Step(s, i), Note(s, log, i);
      l.asked == Addresses(l.served) + Held(t.inLatch)
  {
    hide Contents, Latched, Clock, CmdReady, PendingReady, Fetches, Response, WriteBanks;
    var more := if Sends(s, i) then [Reading(s.inLatch.value, s.banks)] else [];
    assert Addresses(log.served + more) == Addresses(log.served) + Addresses(more);
  }

  lemma NoteAnswers(s: State, log: Log, i: Inputs)
    requires Ok(s) && i.Valid() && Ok(Step(s, i))
    requires forall r :: r in log.served ==> r.addr.Valid()
    requires Answers(log.served) == log.delivered + Flight(s)
    ensures var t, l := Step(s, i), Note(s, log, i);
      && (forall r :: r in l.served ==> r.addr.Valid())
      && Answers(l.served) == l.delivered + Flight(t)
  {
    var answer := if Sends(s, i) then [ReadWord(s.banks, s.inLatch.value)] else [];
    FlightMoves(s, i);
    Regroup(Answers(log.served), log.delivered, Flight(s), Delivers(s, i), answer);
    if Sends(s, i) {
      AnswersAppend(log.served, Reading(s.inLatch.value, s.banks));
    }
    hide InStep, Contents, Step, Flight, ReadWord, Answers, Moved;
  }

  lemma Regroup(answers: seq<Word>, delivered: seq<Word>, flight: seq<Word>, taken: bool, more: seq<Word>)
    requires answers == delivered + flight && (taken ==> flight != [])
    ensures answers + more == (delivered + if taken then [flight[0]] else []) + Moved(flight, taken, more)
  {
  }

  lemma AnswersAppend(served: seq<Reading>, r: Reading)
    requires r.addr.Valid() && forall x :: x in served ==> x.addr.Valid()
    ensures Answers(served + [r]) == Answers(served) + [ReadWord(r.memory, r.addr)]
  {
  }

  lemma NoteWrites(s: State, log: Log, i: Inputs, before: Banks)
    requires Ok(s) && i.Valid() && Accounted(s, log, before)
    ensures var t, l := Step(s, i), Note(s, log, i);
      && (forall w :: w in l.writes ==> w.Valid())
      && (t.wrLatch.Some? ==> l.writes != [] && l.writes[|l.writes| - 1] == t.wrLatch.value)
      && t.banks == AllWritten(before, if t.wrLatch.Some? then l.writes[..|l.writes| - 1] else l.writes)
  {
    var t, l := Step(s, i), Note(s, log, i);
    hide Ok, Flight, Clock, CmdReady, PendingReady, Fetches, ReadWord, Response, WriteBanks;
    assert t.wrLatch.Some? ==> l.writes[..|l.writes| - 1] == log.writes;
    assert t.wrLatch.None? ==> l.writes == log.writes;
  }

  // Over every run: reads are answered in order, each with the 64 bytes the memory held at its
  // address when it entered the RAM, and none is lost or answered twice, under any
  // back-pressure; writes take effect in order.
  lemma {:induction false} RunIsAccounted(s: State, ins: seq<Inputs>)
    requires Ok(s) && s.inLatch == None && s.wrLatch == None && Flight(s) == [] && forall i :: i in ins ==> i.Valid()
    ensures Accounted(Run(s, ins), Noted(s, ins), s.banks)
  {
    if ins != [] {
      var n := |ins| - 1;
      var t, log := Run(s, ins[..n]), Noted(s, ins[..n]);
      RunIsAccounted(s, ins[..n]);
      StepOk(t, ins[n]);
      NoteAsked(t, log, ins[n]);
      NoteAnswers(t, log, ins[n]);
      NoteWrites(t, log, ins[n], s.banks);
      hide Ok, Step, Note, Flight, AllWritten;
    }
  }

  lemma InitialOk(depth: nat)
    requires 0 < depth <= PENDING
    ensures Ok(Initial(depth)) && Flight(Initial(depth)) == []
  {
    NoContents(depth);
  }

  lemma {:induction false} NoContents(depth: nat)
    ensures Contents<Word>(seq(depth, _ => None)) == []
  {
    if depth > 0 {
      NoContents(depth - 1);
      assert seq<Option<Word>>(depth, _ => None)[..depth - 1] == seq(depth - 1, _ => None);
    }
  }

  // At most as many reads are inside the RAM as it has stages; a reader that is always ready
  // is never refused one.
  // A word at the end of the pipelines moves on whenever the latch behind them is free, or freed.
  lemma Flow(s: State, i: Inputs)
    requires Ok(s)
    ensures |s.pending| <= |s.even|
    ensures i.ready && i.read.Some? ==> TakesRead(s, i)
    ensures Offers(s.even) && (i.ready || s.outLatch.None?) ==> Step(s, i).outLatch.Some?
  {
    SendsWhenReady(s, i);
    hide Response, WriteBanks, Clock, Contents;
  }

  /* With a ready reader everything is answered. */

  predicate Quiet(i: Inputs) {
    i.read.None? && i.ready
  }

  ghost predicate EmptyUpTo(p: Pipe<Word>, n: int) {
    forall j :: 0 <= j < |p| && j < n ==> p[j].None?
  }

  // After `k` cycles without a new read: the latched read has left, the pipelines are empty from the
  // front on, and at last the output latch is.
  lemma {:induction false} QuietTail(s: State, ins: seq<Inputs>, k: nat)
    requires Ok(s) && (forall i :: i in ins ==> i.Valid()) && k <= |ins|
    requires forall j :: |ins| - k <= j < |ins| ==> Quiet(ins[j])
    ensures var r := Run(s, ins);
      && |r.even| == |r.odd| == |s.even| && (k >= 1 ==> r.inLatch == None)
      && EmptyUpTo(r.even, k - 1) && EmptyUpTo(r.odd, k - 1)
      && (k >= |s.even| + 2 ==> r.outLatch == None)
    decreases |ins|
  {
    hide Ok, Step, EmptyUpTo;
    if ins != [] {
      var n := |ins| - 1;
      QuietTail(s, ins[..n], if k > 0 then k - 1 else 0);
      QuietStep(Run(s, ins[..n]), ins[n], k);
    } else {
      NoneEmpty(s);
    }
  }

  lemma NoneEmpty(s: State)
    requires Ok(s)
    ensures |s.even| == |s.odd| && EmptyUpTo(s.even, -1) && EmptyUpTo(s.odd, -1)
  {
  }

  lemma QuietStep(t: State, i: Inputs, k: nat)
    requires Ok(t) && i.Valid() && |t.even| == |t.odd| && (k >= 1 ==> Quiet(i)) && (k >= 2 ==> t.inLatch == None)
    requires var j := if k == 0 then -1 else k - 2; EmptyUpTo(t.even, j) && EmptyUpTo(t.odd, j)
    ensures var r := Step(t, i);
      && |r.even| == |r.odd| == |t.even| && (k >= 1 ==> r.inLatch == None)
      && EmptyUpTo(r.even, k - 1) && EmptyUpTo(r.odd, k - 1) && (k >= |t.even| + 2 ==> r.outLatch == None)
  {
    SendsWhenReady(t, i);
    hide Contents, Latched, InStep, CloseUp, Response, WriteBanks, PendingReady;
    if k >= 2 {
      assert Clock(t.even, true, None) == [None] + t.even[..|t.even| - 1];
      assert Clock(t.odd, true, None) == [None] + t.odd[..|t.odd| - 1];
    }
  }

  lemma {:induction false} EmptyContents(p: Pipe<Word>)
    requires EmptyUpTo(p, |p|)
    ensures Contents(p) == []
  {
    if p != [] {
      EmptyContents(p[..|p| - 1]);
    }
  }

  // So once the reader has been ready for two cycles more than there are stages, without new reads,
  // every read has been answered: with the memory's words, in order.
  lemma EverythingIsAnswered(s: State, ins: seq<Inputs>, k: nat)
    requires Ok(s) && s.inLatch == None && s.wrLatch == None && Flight(s) == [] && forall i :: i in ins ==> i.Valid()
    requires |s.even| + 2 <= k <= |ins| && forall j :: |ins| - k <= j < |ins| ==> Quiet(ins[j])
    ensures var log := Noted(s, ins);
      && (forall r :: r in log.served ==> r.addr.Valid())
      && log.asked == Addresses(log.served) && log.delivered == Answers(log.served)
  {
    hide Ok, Step, EmptyUpTo, Run, Noted, Addresses, Answers;
    QuietTail(s, ins, k);
    RunIsAccounted(s, ins);
    var r, log := Run(s, ins), Noted(s, ins);
    FlightIsOver(r, k - 1);
    assert log.asked == Addresses(log.served) + [] && log.delivered + [] == log.delivered;
  }

  lemma FlightIsOver(s: State, n: nat)
    requires Ok(s) && s.outLatch == None && EmptyUpTo(s.even, n) && n >= |s.even|
    ensures Flight(s) == []
  {
    EmptyContents(s.even);
  }

  /* The same, updated in place. */

  class Port {
    const even: Segment
    const odd: Segment
    var inLatch: Option<RamAddr>
    var pending: seq<RamAddr>
    var outLatch: Option<Word>
    var wrLatch: Option<WriteReq>

    ghost predicate Valid()
      reads this, even, odd
    {
      && even.Valid() && odd.Valid() && even.valid.Length == odd.valid.Length
      && {even.mem, even.data} !! {odd.mem, odd.data} && even.valid != odd.valid
    }

    ghost function Now(): (s: State)
      requires Valid()
      reads this, even, odd, even.mem, even.valid, even.data, odd.mem, odd.valid, odd.data
      ensures s.even != [] && s.odd != []
    {
      State(inLatch, pending, outLatch, even.Stages(), odd.Stages(), wrLatch, Banks(even.Rows(), odd.Rows()))
    }

    constructor (depth: nat)
      requires 0 < depth
      ensures Valid() && Now() == Initial(depth)
      ensures fresh(even) && fresh(even.mem) && fresh(even.valid) && fresh(even.data)
      ensures fresh(odd) && fresh(odd.mem) && fresh(odd.valid) && fresh(odd.data)
    {
      even := new Segment(depth);
      odd := new Segment(depth);
      inLatch, pending, outLatch, wrLatch := None, [], None, None;
    }

    // The segments read their memories before they write them.
    method ClockSegments(ready: bool)
      requires Valid() && Latched(Now())
      modifies even.mem, even.valid, even.data, odd.mem, odd.valid, odd.data
      ensures Valid()
      ensures var s := old(Now());
        && even.Stages() == RamPipeline.Clock(s.even, ready, EvenRead(s))
        && odd.Stages() == RamPipeline.Clock(s.odd, ready, OddRead(s))
        && Banks(even.Rows(), odd.Rows()) == if s.wrLatch.Some? then WriteBanks(s.banks, s.wrLatch.value) else s.banks
    {
      hide RamPipeline.Clock, Written, Enables, Extended;
      even.Read(ready, if inLatch.Some? then Some(inLatch.value.EvenRow()) else None);
      odd.Read(ready, if inLatch.Some? then Some(inLatch.value.OddRow()) else None);
      if wrLatch.Some? {
        even.Write(EvenWrite(wrLatch.value));
        odd.Write(OddWrite(wrLatch.value));
      }
    }

    // The handshakes, from the latches and the segments as they are before the edge.
    method Handshakes(i: Inputs) returns (fetches: bool, sends: bool, takes: bool)
      requires Valid() && Latched(Now())
      ensures fetches == Fetches(Now(), i) && sends == Sends(Now(), i) && takes == TakesRead(Now(), i)
      ensures sends ==> inLatch.Some?
    {
      hide Accepts;
      var ready := outLatch.None? || i.ready;
      var evenReady := even.CommandReady(ready);
      var oddReady := odd.CommandReady(ready);
      var evenWord := even.Response();
      var oddWord := odd.Response();
      fetches := evenWord.Some? && oddWord.Some? && ready;
      var free := evenReady && oddReady && (|pending| < PENDING || fetches);
      sends := inLatch.Some? && free;
      takes := i.read.Some? && (inLatch.None? || free);
    }

    method ClockLatches(i: Inputs, fetches: bool, sends: bool, takes: bool, word: Word)
      requires sends ==> inLatch.Some?
      modifies this
      ensures inLatch == if takes then i.read else if sends then None else old(inLatch)
      ensures pending == (if fetches && old(pending) != [] then old(pending)[1..] else old(pending))
                         + if sends then [old(inLatch).value] else []
      ensures outLatch == if fetches then Some(word) else if i.ready then None else old(outLatch)
      ensures wrLatch == i.write
    {
      wrLatch := i.write;
      if fetches {
        outLatch := Some(word);
        if pending != [] {
          pending := pending[1..];
        }
      } else if i.ready {
        outLatch := None;
      }
      if sends {
        pending := pending + [inLatch.value];
        inLatch := None;
      }
      if takes {
        inLatch := i.read;
      }
    }

    // One clock edge.
    method Clock(i: Inputs)
      requires Valid() && Ok(Now()) && i.Valid()
      modifies this, even.mem, even.valid, even.data, odd.mem, odd.valid, odd.data
      ensures Valid() && Now() == Step(old(Now()), i) && Ok(Now())
    {
      hide RamPipeline.Clock, Accepts, Contents, WriteBanks, EvenRead, OddRead, InStep, Sends, TakesRead, Response;
      hide Words;
      ghost var s := Now();
      StepOk(s, i);
      var fetches, sends, takes := Handshakes(i);
      var word := Ordered(fetches);
      assert Now() == s;
      ClockSegments(outLatch.None? || i.ready);
      ClockLatches(i, fetches, sends, takes, word);
    }

    method Ordered(fetches: bool) returns (word: Word)
      requires Valid() && Latched(Now()) && (fetches ==> Offers(even.Stages()) && Offers(odd.Stages()))
      ensures fetches ==> word == Response(Now())
    {
      hide Assemble;
      word := ZERO_WORD;
      if fetches {
        var evenWord := even.Response();
        var oddWord := odd.Response();
        word := Assemble(if pending == [] then ORIGIN else pending[0], evenWord.value, oddWord.value);
      }
    }
  }
}
