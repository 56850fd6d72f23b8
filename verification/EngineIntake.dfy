/** The engine takes descriptors again and again. */
module EngineIntake {
  import opened Options
  import opened TlpSizing
  import opened TlpStream
  import opened Ring
  import opened ReadEngine
  import opened EngineTags
  import opened EngineCredits
  import opened EngineStatus
  import opened EngineCounts
  import opened EngineOps
  import opened EngineStream
  import opened EngineData
  import opened EngineFates
  import opened EngineRuns
  import opened EngineProgress

  // A descriptor offered now would be taken.
  predicate Takes(s: State) {
    s.req.descReady && !s.req.busy
  }

  ghost predicate NeverTakes(e: Env, n: nat)
    requires e.Valid()
  {
    forall m: nat :: n <= m ==> !Takes(e.At(m))
  }

  /* A busy engine gets through its descriptor. */

  // While it is busy it keeps the operation and takes no other descriptor.
  lemma BusyNext(b: State, i: Inputs, op: nat)
    requires Good(b) && i.Valid(b.cfg) && b.req.busy && op < b.cfg.ops
    ensures var r := Clock(b, i);
      r.history[op].accepted == b.history[op].accepted && (r.req.busy ==> r.req.op == b.req.op)
  {
    hide Good, Clock, Stored, TagPlaces, CplTag, Room, Formed, OpsOk, Offered, Fires, Finishes, RequestFor, Size;
    GoodParts(b);
    HistoryNext(b, i, op);
    assert b.req.busy ==> b.req.opValid by { HeldIsValid(b); }
    BusyOp(b, i);
  }

  lemma HeldIsValid(s: State)
    requires OpsOk(s)
    ensures s.req.busy ==> s.req.opValid
  {
  }

  lemma BusyOp(b: State, i: Inputs)
    requires Shaped(b) && i.Valid(b.cfg) && Offered(b) && (b.req.busy ==> b.req.opValid) && b.req.busy
    ensures Clock(b, i).req.busy ==> Clock(b, i).req.op == b.req.op
  {
    hide Stored, Reporting, Completing, Issue, ReqNext, FetchOp;
    var t := Completing(b, Reporting(b, i), i);
    IssueReq(b, t, i);
    BusyHeld(b, t, i);
  }

  lemma {:induction false} BusyAlong(e: Env, n: nat, m: nat, op: nat)
    requires e.Valid() && e.Conforms() && n <= m && op < e.cfg.ops && forall k :: n <= k <= m ==> e.At(k).req.busy
    ensures e.At(m).req.op == e.At(n).req.op && e.At(m).history[op].accepted == e.At(n).history[op].accepted
    decreases m - n
  {
    hide Clock, Good, StreamsOk, Stored, Env.At, Env.Valid, Env.Conforms;
    if n < m {
      NextAt(e, n);
      AtIsGood(e, n);
      BusyNext(e.At(n), e.ins(n), op);
      BusyAlong(e, n + 1, m, op);
    }
  }

  lemma GetsIdle(e: Env, n: nat) returns (m: nat)
    requires e.Valid() && e.Conforms() && e.Fair()
    ensures n <= m && !e.At(m).req.busy
  {
    hide Clock, Good, StreamsOk, Stored, Env.At, Env.Valid, Env.Conforms, Env.Fair, Unfinished;
    m := n;
    if e.At(n).req.busy {
      var op := e.At(n).req.op;
      AtIsGood(e, n);
      BusyIsLive(e.At(n));
      var k := EngineProgress.Raises(e, n, op);
      if j: nat :| n <= j <= k && !e.At(j).req.busy {
        m := j;
      } else {
        BusyAlong(e, n, k, op);
        AtIsGood(e, k);
        StatusPerDescriptor(e.At(n), op);
        StatusPerDescriptor(e.At(k), op);
      }
    }
  }

  lemma BusyIsLive(s: State)
    requires Good(s) && s.req.busy
    ensures s.req.op < s.cfg.ops && Live(s.history[s.req.op])
  {
    hide Stored, TagPlaces, CplTag, Room, Formed, Counted, Gated;
    BusyAccepted(s);
  }

  /* An idle one gets an operation tag. */

  lemma IdleNext(b: State, i: Inputs, op: nat)
    requires Good(b) && i.Valid(b.cfg) && !b.req.busy && !Takes(b) && op < b.cfg.ops
    ensures var r := Clock(b, i);
      && !r.req.busy && r.req.descReady == (i.enable && b.req.opValid)
      && r.req.opValid == (b.req.opValid || b.freeOps.Contents() != [])
      && r.history[op].accepted == b.history[op].accepted
  {
    hide Good, Clock, Stored, TagPlaces, CplTag, Room, Formed, OpsOk, Offered, Finishes, RequestFor, Size;
    hide Ring.Contents;
    GoodParts(b);
    HistoryNext(b, i, op);
    IdleReq(b, i);
  }

  lemma IdleReq(b: State, i: Inputs)
    requires Shaped(b) && i.Valid(b.cfg) && !b.req.busy && !b.req.descReady
    ensures var r := Clock(b, i).req;
      !r.busy && r.descReady == (i.enable && b.req.opValid)
      && r.opValid == (b.req.opValid || b.freeOps.Contents() != [])
  {
    hide Stored, Reporting, Completing, Issue, Size, RequestFor, Ring.Contents, Ring.Head, Ring.Pop;
    var t := Completing(b, Reporting(b, i), i);
    IssueReq(b, t, i);
    assert b.freeOps.Contents() != [] <==> !b.freeOps.Empty() by { EmptyMeans(b.freeOps); }
  }

  // It is ready for a descriptor exactly if it is enabled, has nothing in hand, and had an operation
  // tag before the edge and has one after it.
  lemma ReadyForNext(b: State, i: Inputs)
    requires Good(b) && i.Valid(b.cfg)
    ensures var r := Clock(b, i).req; r.descReady <==> i.enable && !r.busy && b.req.opValid && r.opValid
  {
    hide Good, Stored, TagPlaces, CplTag, Room, Formed, Offered, Clock, EngineCredits.Counted, EngineCredits.Gated;
    hide ReqNext, OpOk, OpPlace, Size, Ring.Contents;
    GoodParts(b);
    assert b.req.busy ==> b.req.opValid by { HeldIsValid(b); }
    ReadyReq(b, i);
  }

  lemma ReadyReq(b: State, i: Inputs)
    requires Shaped(b) && i.Valid(b.cfg) && (b.req.busy ==> b.req.opValid) && (b.req.descReady ==> b.req.opValid)
    ensures var r := Clock(b, i).req; r.descReady <==> i.enable && !r.busy && b.req.opValid && r.opValid
  {
    hide Stored, Reporting, Completing, Issue, Size, RequestFor, Ring.Contents, Ring.Head, Ring.Pop, RamAfter;
    var t := Completing(b, Reporting(b, i), i);
    IssueReq(b, t, i);
  }

  lemma EmptyMeans(r: Ring<nat>)
    requires r.Valid()
    ensures r.Contents() != [] <==> !r.Empty()
  {
  }

  lemma {:induction false} IdleAlong(e: Env, n: nat, m: nat, op: nat)
    requires e.Valid() && e.Conforms() && n <= m && op < e.cfg.ops && !e.At(n).req.busy && NeverTakes(e, n)
    ensures !e.At(m).req.busy && e.At(m).history[op].accepted == e.At(n).history[op].accepted
    decreases m - n
  {
    hide Clock, Good, StreamsOk, Stored, Env.At, Env.Valid, Env.Conforms, Takes;
    if n < m {
      NextAt(e, n);
      AtIsGood(e, n);
      IdleNext(e.At(n), e.ins(n), op);
      IdleAlong(e, n + 1, m, op);
    }
  }

  // With an operation tag free or held, an idle engine takes a descriptor within two edges.
  lemma TakesSoon(e: Env, n: nat)
    requires e.Valid() && e.Conforms() && !e.At(n).req.busy && forall k :: e.ins(k).enable
    requires e.At(n).req.opValid || e.At(n).freeOps.Contents() != []
    ensures !NeverTakes(e, n)
  {
    hide Clock, Good, StreamsOk, Stored, Env.At, Env.Valid, Env.Conforms, Ring.Contents;
    if NeverTakes(e, n) {
      NextAt(e, n);
      AtIsGood(e, n);
      IdleNext(e.At(n), e.ins(n), 0);
      NextAt(e, n + 1);
      AtIsGood(e, n + 1);
      IdleNext(e.At(n + 1), e.ins(n + 1), 0);
    }
  }

  // A slot that is not live has its tag free or held.
  lemma TagIsThere(s: State, op: nat)
    requires Good(s) && op < s.cfg.ops && !Live(s.history[op])
    ensures s.req.opValid || s.freeOps.Contents() != []
  {
    assert OpPlace(s, op);
    hide Stored, Ring.Contents;
  }

  // Whatever it is doing, an engine that stays enabled will take a descriptor.
  lemma TakesAgain(e: Env, n: nat)
    requires e.Valid() && e.Conforms() && e.Fair() && forall k :: e.ins(k).enable
    ensures !NeverTakes(e, n)
  {
    hide Clock, Good, StreamsOk, Stored, Env.At, Env.Valid, Env.Conforms, Env.Fair, Ring.Contents, Takes;
    if NeverTakes(e, n) {
      var m := GetsIdle(e, n);
      assert NeverTakes(e, m);
      AtIsGood(e, m);
      var k := m;
      if Live(e.At(m).history[0]) {
        k := EngineProgress.Raises(e, m, 0);
        IdleAlong(e, m, k, 0);
      }
      AtIsGood(e, k);
      assert !Live(e.At(k).history[0]);
      IdleAlong(e, m, k, 0);
      TagIsThere(e.At(k), 0);
      TakesSoon(e, k);
    }
  }
}
