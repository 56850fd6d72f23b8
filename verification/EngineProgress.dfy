/** With a link, a RAM and completers that do their part, every accepted descriptor raises its status. */
module EngineProgress {
  import opened Options
  import opened TlpSizing
  import opened TlpStream
  import opened Ring
  import opened ReadEngine
  import opened EngineTags
  import opened EngineCredits
  import opened EngineStatus
  import opened EngineCounts
  import opened EngineOps
  import opened EngineStream
  import opened EngineData
  import opened EngineFates
  import opened EngineRuns
  import EngineRows
  import C = CompletionPath

  /* A run without end. */

  // The inputs of every cycle.
  datatype Env = Env(cfg: Config, link: Link, ins: nat -> Inputs) {
    ghost predicate Valid() {
      && cfg.Valid() && Shaped(Reset(cfg)) && link.Valid() && link.geo == cfg.geo
      && forall n :: ins(n).Valid(cfg) && link.For(ins(n))
    }

    ghost function At(n: nat): (s: State)
      requires Valid()
      ensures Shaped(s) && s.cfg == cfg
    {
      if n == 0 then Reset(cfg) else Clock(At(n - 1), ins(n - 1))
    }

    ghost predicate Conforms()
      requires Valid()
    {
      forall n :: !TooSoon(At(n), ins(n))
    }

    /* What the surroundings do again and again. */

    ghost predicate LinkFree(n: nat) {
      ins(n).txReady && ins(n).txAvailable
    }

    ghost predicate LinkAgain(n: nat) {
      exists m: nat :: n <= m && LinkFree(m)
    }

    ghost predicate WritesAgain(n: nat) {
      exists m: nat :: n <= m && ins(m).writesDone
    }

    ghost predicate RoomAgain(n: nat) {
      exists m: nat :: n <= m && ins(m).ramReady
    }

    ghost predicate ReadyAgain(n: nat)
      requires Valid()
    {
      exists m: nat :: n <= m && At(m).cpl.ready
    }

    ghost predicate Ends(n: nat, t: nat)
      requires Valid()
    {
      At(n).cpl.finish && At(n).cpl.tag == t
    }

    ghost predicate EndsAgain(n: nat, t: nat)
      requires Valid()
    {
      exists m: nat :: n <= m && Ends(m, t)
    }

    // Every outstanding read is ended by its last completion or by an error.
    ghost predicate ReadsEnd()
      requires Valid()
    {
      forall n: nat, t: nat | t < cfg.tags && Outstanding(At(n), t) :: EndsAgain(n, t)
    }

    // The link takes requests and the RAM takes and finishes writes again and again; completers
    // end every read if the engine is ready for them again and again.
    ghost predicate Fair()
      requires Valid()
    {
      && (forall n :: LinkAgain(n)) && (forall n :: WritesAgain(n)) && (forall n :: RoomAgain(n))
      && ((forall n :: ReadyAgain(n)) ==> ReadsEnd())
    }
  }

  lemma NextAt(e: Env, n: nat)
    requires e.Valid()
    ensures e.ins(n).Valid(e.cfg) && e.link.For(e.ins(n)) && e.At(0) == Reset(e.cfg)
    ensures e.At(n + 1) == Clock(e.At(n), e.ins(n))
  {
    hide Clock, Reset, Stored;
  }

  lemma {:induction false} AtIsGood(e: Env, n: nat)
    requires e.Valid() && e.Conforms()
    ensures Good(e.At(n)) && StreamsOk(e.At(n), e.link)
  {
    hide Good, StreamsOk, Clock, TooSoon, Reset, Shaped, Env.At;
    if n == 0 {
      NextAt(e, 0);
      ResetGood(e.cfg);
      ResetStreams(e.cfg, e.link);
    } else {
      AtIsGood(e, n - 1);
      NextAt(e, n - 1);
      NextIsGood(e.At(n - 1), e.ins(n - 1), e.link);
    }
  }

  lemma NextIsGood(b: State, i: Inputs, l: Link)
    requires Good(b) && StreamsOk(b, l) && i.Valid(b.cfg) && l.For(i) && !TooSoon(b, i)
    ensures Good(Clock(b, i)) && StreamsOk(Clock(b, i), l)
  {
    GoodParts(b);
    hide Good, StreamsOk, Clock, TooSoon, Stored, OpsOk, Offered, TagPlaces, CplTag, Room, Formed;
    ClockGood(b, i);
    ClockStreams(b, i, l);
  }

  lemma ResetStreams(cfg: Config, l: Link)
    requires cfg.Valid() && Shaped(Reset(cfg)) && l.Valid() && l.geo == cfg.geo
    ensures StreamsOk(Reset(cfg), l)
  {
  }

  /* The statuses under way, oldest first. */

  function Queued(s: State): seq<Status>
    requires Shaped(s)
  {
    Stocked(s) + Sent(s)
  }

  // What is already in the FIFO or taken out of it.
  function Stocked(s: State): seq<Status>
    requires Shaped(s)
  {
    (if s.stRead.valid then [s.stRead.status] else []) + s.statuses.Contents()
  }

  lemma StockedNext(b: State, i: Inputs)
    requires Shaped(b)
    ensures Pops(b, i) ==> Stocked(b) != [] && Stocked(b)[0] == b.stRead.status
    ensures Stocked(Reporting(b, i)) == if Pops(b, i) then Stocked(b)[1..] else Stocked(b)
  {
    hide Stored, Reporting, Ring.Contents;
    ReportingStatuses(b, i);
    var c := b.statuses.Contents();
    assert c != [] ==> c == [c[0]] + c[1..];
  }

  function Sent(s: State): seq<Status> {
    if s.stWrite.en then [Status(s.cpl.op, s.stWrite.finish, s.stWrite.error)] else []
  }

  lemma ClockStocked(b: State, i: Inputs)
    requires Shaped(b) && Room(b) && i.Valid(b.cfg)
    ensures Stocked(Clock(b, i)) == Stocked(Reporting(b, i)) + Sent(b)
  {
    hide Stored, Clock, Reporting, WriteStatus, ReceivedNext, Ring.Contents, Ring.Used, Ring.Valid, Room, Pops;
    var s, r := Reporting(b, i), Clock(b, i);
    ReportingKeeps(b, i);
    StatusRegisters(b, i);
    WrittenStatuses(b, s);
  }

  // One edge pops the oldest, if any, and adds what is received.
  lemma QueuedNext(b: State, i: Inputs)
    requires Shaped(b) && Room(b) && i.Valid(b.cfg)
    ensures var r := Clock(b, i); var q := Queued(b);
      && (Pops(b, i) ==> q != [] && q[0] == b.stRead.status)
      && Queued(r) == (if Pops(b, i) then q[1..] else q) + Sent(r)
  {
    hide Stored, Clock, Reporting, Room, Stocked, Sent, Ring.Contents, Ring.Used;
    StockedNext(b, i);
    ClockStocked(b, i);
  }

  // How many edges it may take until a status can be popped.
  function Lag(s: State): nat
    requires Shaped(s)
  {
    if s.stRead.valid then 0 else if s.statuses.Contents() != [] then 1 else 2
  }

  lemma LagNext(b: State, i: Inputs)
    requires Shaped(b) && Room(b) && i.Valid(b.cfg) && Queued(b) != [] && !Pops(b, i)
    ensures if Lag(b) == 0 then Lag(Clock(b, i)) == 0 else Lag(Clock(b, i)) < Lag(b)
  {
    var s := Reporting(b, i);
    hide Stored, Clock, Reporting, WriteStatus, ReceivedNext, Ring.Contents, Ring.Used, Ring.Valid, Room;
    ReportingStatuses(b, i);
    ReportingKeeps(b, i);
    StatusRegisters(b, i);
    WrittenStatuses(b, s);
  }

  lemma RoomAt(e: Env, n: nat)
    requires e.Valid() && e.Conforms()
    ensures var s := e.At(n);
      && TagPlaces(s) && CplTag(s) && StatusesOk(s) && OpsOk(s) && Offered(s) && Counted(s) && Gated(s)
      && e.ins(n).Valid(e.cfg) && StreamsOk(s, e.link) && !TooSoon(s, e.ins(n))
  {
    AtIsGood(e, n);
    GoodParts(e.At(n));
  }

  // A status under way is popped, when those in front of it are.
  lemma {:induction false} StatusPops(e: Env, n: nat, done: nat, j: nat) returns (m: nat)
    requires e.Valid() && e.Conforms() && (forall k :: e.WritesAgain(k)) && j < |Queued(e.At(n))|
    requires n + Lag(e.At(n)) <= done && e.ins(done).writesDone
    ensures n <= m && Pops(e.At(m), e.ins(m)) && e.At(m).stRead.status == Queued(e.At(n))[j]
    decreases j, done - n
  {
    hide Clock, TagPlaces, CplTag, OpsOk, Offered, Counted, Gated, StreamsOk, TooSoon, Stored, Env.At, Queued;
    hide Env.Valid, Env.Conforms, Sent, Env.WritesAgain, Room, Formed;
    NextAt(e, n);
    RoomAt(e, n);
    QueuedNext(e.At(n), e.ins(n));
    if Pops(e.At(n), e.ins(n)) {
      if j == 0 {
        m := n;
      } else {
        var later := WritesLater(e, n + 3);
        m := StatusPops(e, n + 1, later, j - 1);
      }
    } else {
      LagNext(e.At(n), e.ins(n));
      m := StatusPops(e, n + 1, done, j);
    }
  }

  lemma WritesLater(e: Env, n: nat) returns (m: nat)
    requires e.WritesAgain(n)
    ensures n <= m && e.ins(m).writesDone
  {
    m :| n <= m && e.ins(m).writesDone;
  }

  lemma QueuedPops(e: Env, n: nat, j: nat) returns (m: nat)
    requires e.Valid() && e.Conforms() && (forall k :: e.WritesAgain(k)) && j < |Queued(e.At(n))|
    ensures n <= m && Pops(e.At(m), e.ins(m)) && e.At(m).stRead.status == Queued(e.At(n))[j]
  {
    hide Env.At, Env.Valid, Env.Conforms, Env.WritesAgain, Queued, Stored;
    var done := WritesLater(e, n + 2);
    m := StatusPops(e, n, done, j);
  }

  // The last status of a read is popped.
  lemma SentPops(e: Env, n: nat) returns (m: nat)
    requires e.Valid() && e.Conforms() && (forall k :: e.WritesAgain(k)) && e.At(n).cpl.finish
    ensures n <= m && Finishes(e.At(m), e.ins(m)) && e.At(m).stRead.status.op == e.At(n).cpl.op
  {
    hide TagPlaces, CplTag, OpsOk, Offered, Counted, Gated, StreamsOk, TooSoon, Stored, Env.At, Room, Stocked;
    hide Env.Valid, Env.Conforms, Env.WritesAgain;
    RoomAt(e, n);
    var q := Queued(e.At(n));
    assert q[|q| - 1] == Sent(e.At(n))[0];
    m := QueuedPops(e, n, |q| - 1);
  }

  /* Reads end. */

  // On the way to its end a tag stays outstanding for its operation.
  lemma {:induction false} WalkToEnd(e: Env, n: nat, m: nat, t: nat) returns (k: nat)
    requires e.Valid() && e.Conforms() && t < e.cfg.tags && Outstanding(e.At(n), t) && n <= m && e.Ends(m, t)
    ensures n < k <= m && e.Ends(k, t) && e.At(k).cpl.op == OpOf(e.At(n), t)
    decreases m - n
  {
    hide Clock, TagPlaces, CplTag, StatusesOk, OpsOk, Offered, Counted, Gated, StreamsOk, TooSoon, Stored, Env.At;
    hide Env.Valid, Env.Conforms, ReceivedNext, Fires, OpOf, Outstanding, Reporting, WriteStatus, Ring.Used;
    NextAt(e, n);
    RoomAt(e, n);
    var b, i := e.At(n), e.ins(n);
    EngineRows.EndingIsNotNext(b, t);
    OutstandingNext(b, i, t);
    StatusRegisters(b, i);
    FiresNotOutstanding(b, i, t);
    if ReceivedNext(b, i).cpl.finish && ReceivedNext(b, i).cpl.tag == t {
      EndIsOutstanding(b, i);
      EndsUnder(b, t);
      k := n + 1;
    } else {
      k := WalkToEnd(e, n + 1, m, t);
    }
  }

  lemma FiresNotOutstanding(b: State, i: Inputs, t: nat)
    requires TagPlaces(b) && t < b.cfg.tags && Outstanding(b, t)
    ensures !(Fires(b, i) && b.req.tag == t)
  {
    NotHeld(b, t);
    hide TagPlaces, Outstanding;
  }

  lemma ReadEnds(e: Env, n: nat, t: nat) returns (k: nat)
    requires e.Valid() && e.Conforms() && e.ReadsEnd() && t < e.cfg.tags && Outstanding(e.At(n), t)
    ensures n < k && e.Ends(k, t) && e.At(k).cpl.op == OpOf(e.At(n), t)
  {
    hide Env.At, Env.Valid, Env.Conforms, Env.Ends, Outstanding, OpOf, Stored;
    assert e.EndsAgain(n, t);
    var m: nat :| n <= m && e.Ends(m, t);
    k := WalkToEnd(e, n, m, t);
  }

  lemma {:induction false} SomeActive(op: nat, table: seq<TagSlot>) returns (t: nat)
    requires Total(ReadsOf(op), table) > 0
    ensures t < |table| && table[t].Active() && table[t].entry.op == op
  {
    if table[0].Active() && table[0].entry.op == op {
      t := 0;
    } else {
      t := SomeActive(op, table[1..]);
      t := t + 1;
    }
  }

  lemma {:induction false} SomeFinishing(c: seq<Status>, op: nat) returns (j: nat)
    requires Finishing(c, op) > 0
    ensures j < |c| && c[j].finish && c[j].op == op
  {
    if c[0].finish && c[0].op == op {
      j := 0;
    } else {
      j := SomeFinishing(c[1..], op);
      j := j + 1;
    }
  }

  lemma StockedAt(s: State, op: nat) returns (j: nat)
    requires Shaped(s) && Reported(s, op) > 0
    ensures j < |Queued(s)| && Queued(s)[j].finish && Queued(s)[j].op == op
  {
    hide Stored, Ring.Contents;
    if s.stRead.valid && s.stRead.status.finish && s.stRead.status.op == op {
      j := 0;
    } else {
      j := SomeFinishing(s.statuses.Contents(), op);
      if s.stRead.valid {
        j := j + 1;
      }
    }
  }

  // An unfinished read is finished.
  lemma UnfinishedFinishes(e: Env, n: nat, op: nat) returns (m: nat)
    requires e.Valid() && e.Conforms() && e.ReadsEnd() && (forall k :: e.WritesAgain(k))
    requires op < e.cfg.ops && Unfinished(e.At(n), op) > 0
    ensures n <= m && Finishes(e.At(m), e.ins(m)) && e.At(m).stRead.status.op == op
  {
    hide OpsOk, Offered, Counted, Gated, StreamsOk, TooSoon, Stored, Env.At, Room, Formed, Queued, Reported, Total;
    hide Env.Valid, Env.Conforms, Env.WritesAgain, Env.ReadsEnd, TagPlaces, Places, Occurs;
    RoomAt(e, n);
    var s := e.At(n);
    if Reported(s, op) > 0 {
      var j := StockedAt(s, op);
      m := QueuedPops(e, n, j);
    } else if s.cpl.finish && s.cpl.op == op {
      m := SentPops(e, n);
    } else {
      var t := ReadOf(s, op);
      var k := ReadEnds(e, n, t);
      m := SentPops(e, k);
    }
  }

  lemma ReadOf(s: State, op: nat) returns (t: nat)
    requires TagPlaces(s) && CplTag(s) && InFlight(ReadsOf(op), s) > 0 && !(s.cpl.finish && s.cpl.op == op)
    ensures t < s.cfg.tags && Outstanding(s, t) && OpOf(s, t) == op
  {
    if s.start.en && s.start.entry.op == op {
      t := s.start.tag;
    } else {
      t := SomeActive(op, s.table);
      assert Places(s, t) == 1;
    }
  }

  /* A busy engine sends its next request. */

  // In the table or on its way into it.
  predicate InTable(s: State, t: nat)
    requires Sized(s) && t < s.cfg.tags
  {
    s.table[t].Active() || (s.start.en && s.start.tag == t)
  }

  ghost predicate SendsNone(e: Env, n: nat)
    requires e.Valid()
  {
    forall m: nat :: n <= m ==> !Fires(e.At(m), e.ins(m))
  }

  // What an edge without a request leaves.
  lemma NoRequest(b: State, i: Inputs)
    requires Good(b) && i.Valid(b.cfg) && !Fires(b, i)
    ensures var r := Clock(b, i);
      && (b.req.busy ==> r.req.busy && r.req.op == b.req.op)
      && (b.req.tagValid || b.low.Contents() != [] ==> r.req.tagValid)
  {
    hide Clock, Stored, ReqNext;
    GoodParts(b);
    hide Good, TagPlaces, CplTag, Room, Formed, Counted, Gated, OpsOk;
    if b.req.busy {
      KeepsOp(b, i);
    }
    KeepsTag(b, i);
  }

  lemma KeepsOp(b: State, i: Inputs)
    requires Shaped(b) && i.Valid(b.cfg) && Offered(b) && (b.req.busy ==> b.req.opValid) && !Fires(b, i) && b.req.busy
    ensures Clock(b, i).req.busy && Clock(b, i).req.op == b.req.op
  {
    var t := Completing(b, Reporting(b, i), i);
    IssueReq(b, t, i);
    PositionNext(b, i);
    BusyHeld(b, t, i);
    hide Stored, Reporting, Completing, Issue, ReqNext, FetchOp;
  }

  lemma KeepsTag(b: State, i: Inputs)
    requires Shaped(b) && i.Valid(b.cfg) && !Fires(b, i)
    ensures b.req.tagValid || b.low.Contents() != [] ==> Clock(b, i).req.tagValid
  {
    var t := Completing(b, Reporting(b, i), i);
    IssueReq(b, t, i);
    HeldTag(b, i);
    assert b.low.Contents() != [] ==> !b.low.Empty();
    hide Stored, Reporting, Completing, Issue, ReqNext, Ring.Contents, Ring.Empty;
  }

  // Without requests no tag enters the table.
  lemma NoEntry(b: State, i: Inputs, t: nat)
    requires TagPlaces(b) && CplTag(b) && i.Valid(b.cfg) && !Fires(b, i) && t < b.cfg.tags
    requires !InTable(b, t) || Ending(b, t)
    ensures !InTable(Clock(b, i), t)
  {
    ClockTable(b, i);
    StartNext(b, i);
    TableKeeps(b, t);
    if Ending(b, t) {
      assert Places(b, t) == 1;
    }
    hide Stored, TagPlaces, CplTag, Clock, TableAfter, Fires, Size, RamAfter;
  }

  lemma {:induction false} StaysBusy(e: Env, n: nat, m: nat)
    requires e.Valid() && e.Conforms() && n <= m && e.At(n).req.busy
    requires forall k :: n <= k < m ==> !Fires(e.At(k), e.ins(k))
    ensures e.At(m).req.busy && e.At(m).req.op == e.At(n).req.op
    decreases m - n
  {
    hide Clock, Good, StreamsOk, Stored, Env.At, Env.Valid, Env.Conforms, Fires;
    if n < m {
      NextAt(e, n);
      AtIsGood(e, n);
      NoRequest(e.At(n), e.ins(n));
      StaysBusy(e, n + 1, m);
    }
  }

  lemma {:induction false} StaysTagged(e: Env, n: nat, m: nat)
    requires e.Valid() && e.Conforms() && n <= m && SendsNone(e, n) && e.At(n).req.tagValid
    ensures e.At(m).req.tagValid
    decreases m - n
  {
    hide Clock, Good, StreamsOk, Stored, Env.At, Env.Valid, Env.Conforms, Fires;
    if n < m {
      NextAt(e, n);
      AtIsGood(e, n);
      NoRequest(e.At(n), e.ins(n));
      StaysTagged(e, n + 1, m);
    }
  }

  lemma {:induction false} StaysOut(e: Env, n: nat, m: nat, t: nat)
    requires e.Valid() && e.Conforms() && n <= m && SendsNone(e, n) && t < e.cfg.tags && !InTable(e.At(n), t)
    ensures !InTable(e.At(m), t)
    decreases m - n
  {
    hide Clock, TagPlaces, CplTag, StatusesOk, OpsOk, Offered, Counted, Gated, StreamsOk, TooSoon, Stored, Env.At;
    hide Env.Valid, Env.Conforms, Fires, InTable;
    if n < m {
      NextAt(e, n);
      RoomAt(e, n);
      NoEntry(e.At(n), e.ins(n), t);
      StaysOut(e, n + 1, m, t);
    }
  }

  lemma TagLeaves(e: Env, n: nat, t: nat) returns (m: nat)
    requires e.Valid() && e.Conforms() && e.ReadsEnd() && SendsNone(e, n) && t < e.cfg.tags
    ensures n <= m && !InTable(e.At(m), t)
  {
    hide Clock, TagPlaces, CplTag, StatusesOk, OpsOk, Offered, Counted, Gated, StreamsOk, TooSoon, Stored, Env.At;
    hide Env.Valid, Env.Conforms, Env.ReadsEnd, Fires, OpOf;
    m := n;
    if InTable(e.At(n), t) {
      var k := n;
      if Outstanding(e.At(n), t) {
        k := ReadEnds(e, n, t);
      }
      hide InTable, Outstanding;
      NextAt(e, k);
      RoomAt(e, k);
      NoEntry(e.At(k), e.ins(k), t);
      m := k + 1;
    }
  }

  // The tags below `u` leave for good.
  lemma {:induction false} AllLeave(e: Env, n: nat, u: nat) returns (m: nat)
    requires e.Valid() && e.Conforms() && e.ReadsEnd() && SendsNone(e, n) && u <= e.cfg.tags
    ensures n <= m && forall t, k :: 0 <= t < u && m <= k ==> !InTable(e.At(k), t)
  {
    hide Env.At, Env.Valid, Env.Conforms, Env.ReadsEnd, Fires, InTable, Stored;
    m := n;
    if u > 0 {
      var early := AllLeave(e, n, u - 1);
      m := TagLeaves(e, early, u - 1);
      forall t: nat, k: nat | t < u && m <= k ensures !InTable(e.At(k), t) {
        if t == u - 1 {
          StaysOut(e, m, k, t);
        }
      }
    }
  }

  // With nothing in the table, the credits are all there, and a tag is held or free.
  lemma NothingOut(s: State)
    requires Good(s) && forall t :: 0 <= t < s.cfg.tags ==> !InTable(s, t)
    ensures s.credits.cplhOk && s.credits.cpldOk && (s.req.tagValid || s.low.Contents() != [])
  {
    GoodParts(s);
    NoneStarts(s);
    TotalNone(HeaderCredits, s.table);
    TotalNone(DataCredits, s.table);
    hide Good, OpsOk, Offered, CplTag, StatusesOk, Total;
    LowTagIsFree(s);
  }

  lemma NoneStarts(s: State)
    requires Sized(s) && forall t :: 0 <= t < s.cfg.tags ==> !InTable(s, t)
    ensures !s.start.en && forall t :: 0 <= t < s.cfg.tags ==> !s.table[t].Active()
  {
    var t := s.start.tag;
    assert !InTable(s, t);
    forall u: nat | u < s.cfg.tags ensures !s.table[u].Active() {
      assert !InTable(s, u);
    }
  }

  lemma LowTagIsFree(s: State)
    requires TagPlaces(s) && !InTable(s, 0)
    ensures s.req.tagValid || s.low.Contents() != []
  {
    assert Places(s, 0) == 1;
    OccursIn(s.low.Contents(), 0);
    OccursIn(s.high.Contents(), 0);
    hide Stored, Occurs, Ring.Contents;
  }

  lemma FreeToFire(s: State, i: Inputs)
    requires s.req.busy && s.req.tagValid && s.credits.cplhOk && s.credits.cpldOk && i.txReady && i.txAvailable
    ensures Fires(s, i)
  {
  }

  // A busy engine cannot be kept from sending.
  lemma FiresAgain(e: Env, n: nat)
    requires e.Valid() && e.Conforms() && e.ReadsEnd() && (forall k :: e.LinkAgain(k)) && e.At(n).req.busy
    ensures !SendsNone(e, n)
  {
    hide Clock, Good, StreamsOk, Stored, Env.At, Env.Valid, Env.Conforms, Env.ReadsEnd, InTable, Fires;
    if SendsNone(e, n) {
      var m := AllLeave(e, n, e.cfg.tags);
      AtIsGood(e, m);
      NothingOut(e.At(m));
      NextAt(e, m);
      NoRequest(e.At(m), e.ins(m));
      assert e.LinkAgain(m + 1);
      var k: nat :| m + 1 <= k && e.LinkFree(k);
      AtIsGood(e, k);
      var s, i := e.At(k), e.ins(k);
      NothingOut(s);
      StaysBusy(e, n, k);
      StaysTagged(e, m + 1, k);
      FreeToFire(s, i);
    }
  }

  /* The engine is ready for completions again and again. */

  ghost predicate NeverReady(e: Env, n: nat)
    requires e.Valid()
  {
    forall m: nat :: n <= m ==> !e.At(m).cpl.ready
  }

  // Without being ready the engine receives nothing, and gets ready unless the FIFO was full.
  lemma NothingReceived(b: State, i: Inputs)
    requires Shaped(b) && i.Valid(b.cfg) && !b.cpl.ready && !Clock(b, i).cpl.ready
    ensures Sent(Clock(b, i)) == [] && !(i.ramReady && !b.stFull)
    ensures Clock(b, i).stFull == (b.statuses.Used() >= STATUS_HIGH)
  {
    hide Stored, Clock, Reporting, WriteStatus, Ring.Used;
    StatusRegisters(b, i);
  }

  // So the FIFO is emptied, and stays empty.
  lemma {:induction false} StaysEmpty(e: Env, n: nat, m: nat)
    requires e.Valid() && e.Conforms() && NeverReady(e, n) && n <= m && Queued(e.At(n)) == []
    ensures Queued(e.At(m)) == []
    decreases m - n
  {
    hide Clock, Stored, Env.At, Env.Valid, Env.Conforms, Queued, Sent, Room, Formed, TagPlaces, CplTag, OpsOk, Offered;
    hide Counted, Gated, StreamsOk, TooSoon, Pops;
    if n < m {
      NextAt(e, n);
      RoomAt(e, n);
      QueuedNext(e.At(n), e.ins(n));
      NothingReceived(e.At(n), e.ins(n));
      StaysEmpty(e, n + 1, m);
    }
  }

  lemma {:induction false} Shrinks(e: Env, n: nat, m: nat)
    requires e.Valid() && e.Conforms() && NeverReady(e, n) && n <= m
    ensures |Queued(e.At(m))| <= |Queued(e.At(n))|
    decreases m - n
  {
    hide Clock, Stored, Env.At, Env.Valid, Env.Conforms, Queued, Sent, Room, Formed, TagPlaces, CplTag, OpsOk, Offered;
    hide Counted, Gated, StreamsOk, TooSoon, Pops;
    if n < m {
      NextAt(e, n);
      RoomAt(e, n);
      QueuedNext(e.At(n), e.ins(n));
      NothingReceived(e.At(n), e.ins(n));
      Shrinks(e, n + 1, m);
    }
  }

  lemma {:induction false} Drains(e: Env, n: nat) returns (m: nat)
    requires e.Valid() && e.Conforms() && (forall k :: e.WritesAgain(k)) && NeverReady(e, n)
    ensures n <= m && Queued(e.At(m)) == []
    decreases |Queued(e.At(n))|
  {
    hide Clock, Stored, Env.At, Env.Valid, Env.Conforms, Queued, Sent, Room, Formed, TagPlaces, CplTag, OpsOk, Offered;
    hide Counted, Gated, StreamsOk, TooSoon, Pops, Env.WritesAgain;
    m := n;
    if Queued(e.At(n)) != [] {
      var k := QueuedPops(e, n, 0);
      Shrinks(e, n, k);
      NextAt(e, k);
      RoomAt(e, k);
      QueuedNext(e.At(k), e.ins(k));
      NothingReceived(e.At(k), e.ins(k));
      m := Drains(e, k + 1);
    }
  }

  lemma EmptyIsNotFull(s: State)
    requires Shaped(s) && Queued(s) == []
    ensures s.statuses.Used() < STATUS_HIGH
  {
    assert |s.statuses.Contents()| == 0;
  }

  lemma ReadyOften(e: Env, n: nat)
    requires e.Valid() && e.Conforms() && (forall k :: e.WritesAgain(k)) && (forall k :: e.RoomAgain(k))
    ensures e.ReadyAgain(n)
  {
    hide Clock, Stored, Env.At, Env.Valid, Env.Conforms, Queued, Sent, Env.WritesAgain, Ring.Used;
    if NeverReady(e, n) {
      var m := Drains(e, n);
      assert e.RoomAgain(m + 1);
      var k: nat :| m + 1 <= k && e.ins(k).ramReady;
      StaysEmpty(e, m, k - 1);
      EmptyIsNotFull(e.At(k - 1));
      NextAt(e, k - 1);
      NothingReceived(e.At(k - 1), e.ins(k - 1));
      NextAt(e, k);
      NothingReceived(e.At(k), e.ins(k));
    }
  }

  /* Every operation finishes. */

  lemma ReadsDoEnd(e: Env)
    requires e.Valid() && e.Conforms() && e.Fair()
    ensures e.ReadsEnd()
  {
    hide Env.Valid, Env.Conforms, Env.ReadsEnd, Env.LinkAgain, Env.WritesAgain, Env.RoomAgain, Env.ReadyAgain;
    forall n ensures e.ReadyAgain(n) {
      ReadyOften(e, n);
    }
  }

  // The steps of an operation: requests issued and reads finished.
  function Steps(s: State, op: nat): nat
    requires Sized(s) && op < s.cfg.ops
  {
    |s.history[op].requests| + |s.history[op].codes|
  }

  predicate StepsAt(b: State, i: Inputs, op: nat) {
    (Fires(b, i) && b.req.op == op) || (Finishes(b, i) && b.stRead.status.op == op)
  }

  // An edge raises the status of a live operation, or leaves it live with its steps so far and
  // those of the edge.
  lemma LiveNext(b: State, i: Inputs, op: nat)
    requires Good(b) && i.Valid(b.cfg) && op < b.cfg.ops && Live(b.history[op])
    ensures var h, r := b.history[op], Clock(b, i);
      && |r.history[op].raised| >= |h.raised| && r.history[op].accepted == h.accepted
      && Steps(r, op) >= Steps(b, op) + Bit(StepsAt(b, i, op))
  {
    AcceptsAnother(b, i, op);
    RaisedAtTheEnd(b, i, op);
    GoodParts(b);
    hide Good, Clock, Stored, OpsOk, Offered, TagPlaces, CplTag, Room, Counted, Gated, Formed, Unfinished;
    hide RequestFor, Size, EngineOps.Held;
    HistoryNext(b, i, op);
  }

  // A descriptor is not accepted into a slot that is live.
  lemma AcceptsAnother(b: State, i: Inputs, op: nat)
    requires Good(b) && op < b.cfg.ops && Live(b.history[op])
    ensures !(Accepts(b, i) && b.req.op == op)
  {
    SlotIsOk(b, op);
    hide Unfinished, TagPlaces, CplTag, Room, Formed, Counted, Gated, Running, Waiting, Stored;
  }

  // No more steps than twice the requests of the plan.
  lemma StepsBound(s: State, l: Link, op: nat)
    requires Good(s) && StreamsOk(s, l) && op < s.cfg.ops && Live(s.history[op])
    ensures var h := s.history[op]; var d := h.accepted[|h.accepted| - 1];
      Acceptable(d) && Steps(s, op) <= 2 * |Plan(l, d)|
  {
    SlotIsOk(s, op);
    assert OnPlan(s, l, op);
    hide Unfinished, TagPlaces, CplTag, Room, Formed, Counted, Gated, Stored, Plan, Left, Apart, Remembers, StreamsOk;
  }

  ghost function StepsOver(s: State, l: Link, op: nat): (left: int)
    requires Good(s) && StreamsOk(s, l) && op < s.cfg.ops && Live(s.history[op])
    ensures left >= 0
  {
    hide Good, StreamsOk, Steps, Plan, Stored;
    StepsBound(s, l, op);
    var h := s.history[op];
    2 * |Plan(l, h.accepted[|h.accepted| - 1])| - Steps(s, op)
  }

  // A live operation takes another step.
  lemma StepsAgain(e: Env, n: nat, op: nat) returns (m: nat)
    requires e.Valid() && e.Conforms() && e.Fair() && op < e.cfg.ops && Live(e.At(n).history[op])
    ensures n <= m && StepsAt(e.At(m), e.ins(m), op)
  {
    hide Env.At, Env.Valid, Env.Conforms, Env.ReadsEnd, Env.LinkAgain, Env.WritesAgain, Env.RoomAgain, Env.ReadyAgain;
    hide Stored, Good, StreamsOk, Unfinished, Live, Fires, Finishes, SendsNone;
    ReadsDoEnd(e);
    AtIsGood(e, n);
    LiveHasWork(e.At(n), op);
    if Unfinished(e.At(n), op) > 0 {
      m := UnfinishedFinishes(e, n, op);
    } else {
      FiresAgain(e, n);
      m := FirstFire(e, n);
      StaysBusy(e, n, m);
    }
  }

  lemma LiveHasWork(s: State, op: nat)
    requires Good(s) && op < s.cfg.ops && Live(s.history[op])
    ensures Unfinished(s, op) > 0 || (s.req.busy && s.req.op == op)
  {
    SlotIsOk(s, op);
    hide Unfinished, TagPlaces, CplTag, Room, Formed, Counted, Gated, Stored, Apart, Remembers;
  }

  lemma FirstFire(e: Env, n: nat) returns (m: nat)
    requires e.Valid() && !SendsNone(e, n)
    ensures n <= m && Fires(e.At(m), e.ins(m)) && forall k :: n <= k < m ==> !Fires(e.At(k), e.ins(k))
  {
    hide Env.At, Env.Valid, Fires, Stored;
    var some: nat :| n <= some && Fires(e.At(some), e.ins(some));
    m := n;
    while !Fires(e.At(m), e.ins(m))
      invariant n <= m <= some && forall k :: n <= k < m ==> !Fires(e.At(k), e.ins(k))
      decreases some - m
    {
      m := m + 1;
    }
  }

  // Until then it is raised, or stays live with no fewer steps.
  lemma {:induction false} WalkLive(e: Env, n: nat, m: nat, op: nat)
    requires e.Valid() && e.Conforms() && op < e.cfg.ops && n <= m && Live(e.At(n).history[op])
    requires forall k :: n <= k <= m ==> |e.At(k).history[op].raised| <= |e.At(n).history[op].raised|
    ensures Live(e.At(m).history[op]) && e.At(m).history[op].accepted == e.At(n).history[op].accepted
    ensures Steps(e.At(m), op) >= Steps(e.At(n), op)
    decreases m - n
  {
    hide Clock, Good, StreamsOk, Stored, Env.At, Env.Valid, Env.Conforms, StepsAt, Steps;
    if n < m {
      NextAt(e, n);
      AtIsGood(e, n);
      LiveNext(e.At(n), e.ins(n), op);
      assert |e.At(n + 1).history[op].raised| <= |e.At(n).history[op].raised|;
      WalkLive(e, n + 1, m, op);
    }
  }

  // The status of a live operation is raised.
  lemma {:induction false} Raises(e: Env, n: nat, op: nat) returns (m: nat)
    requires e.Valid() && e.Conforms() && e.Fair() && op < e.cfg.ops && Live(e.At(n).history[op])
    ensures n < m && |e.At(m).history[op].raised| > |e.At(n).history[op].raised|
    decreases StepsLeft(e, n, op)
  {
    hide Clock, Good, StreamsOk, Stored, Env.At, Env.Valid, Env.Conforms, Env.Fair, StepsAt, Steps, Plan;
    var k := StepsAgain(e, n, op);
    if early: nat :| n < early <= k + 1 && |e.At(early).history[op].raised| > |e.At(n).history[op].raised| {
      m := early;
    } else {
      WalkLive(e, n, k, op);
      WalkLive(e, n, k + 1, op);
      NextAt(e, k);
      AtIsGood(e, n);
      AtIsGood(e, k);
      AtIsGood(e, k + 1);
      LiveNext(e.At(k), e.ins(k), op);
      StepsBound(e.At(n), e.link, op);
      StepsBound(e.At(k + 1), e.link, op);
      m := Raises(e, k + 1, op);
    }
  }

  ghost function StepsLeft(e: Env, n: nat, op: nat): int
    requires e.Valid() && e.Conforms() && op < e.cfg.ops && Live(e.At(n).history[op])
  {
    hide Clock, Good, StreamsOk, Stored, Env.At, Env.Valid, Env.Conforms, Steps, Plan;
    AtIsGood(e, n);
    StepsOver(e.At(n), e.link, op)
  }

  lemma {:induction false} AcceptedGrows(e: Env, n: nat, m: nat, op: nat)
    requires e.Valid() && e.Conforms() && op < e.cfg.ops && n <= m
    ensures e.At(n).history[op].accepted <= e.At(m).history[op].accepted
    decreases m - n
  {
    hide Clock, TagPlaces, CplTag, Room, OpsOk, Offered, Counted, Gated, StreamsOk, TooSoon, Stored, Env.At;
    hide Env.Valid, Env.Conforms, Formed, RequestFor, Size, Accepts, Fires, Finishes;
    if n < m {
      NextAt(e, n);
      RoomAt(e, n);
      HistoryNext(e.At(n), e.ins(n), op);
      AcceptedGrows(e, n + 1, m, op);
    }
  }

  // Every accepted descriptor has its own status raised at some time.
  lemma EveryDescriptorFinishes(e: Env, n: nat) returns (m: nat)
    requires e.Valid() && e.Conforms() && e.Fair() && Accepts(e.At(n), e.ins(n))
    ensures var op := e.At(n).req.op; var k := |e.At(n).history[op].accepted|; var raised := e.At(m).history[op].raised;
      n < m && k < |raised| && raised[k].tag == e.ins(n).desc.value.tag
  {
    hide Clock, TagPlaces, CplTag, Room, OpsOk, Offered, Counted, Gated, StreamsOk, TooSoon, Stored, Env.At, Good;
    hide Env.Valid, Env.Conforms, Env.Fair, Formed, RequestFor, Size, Unfinished;
    var op := e.At(n).req.op;
    NextAt(e, n);
    RoomAt(e, n);
    AcceptedIsLive(e.At(n), e.ins(n));
    HistoryNext(e.At(n), e.ins(n), op);
    m := Raises(e, n + 1, op);
    AcceptedGrows(e, n + 1, m, op);
    AtIsGood(e, m);
    StatusPerDescriptor(e.At(m), op);
  }

  /* Such surroundings exist: for one, a link on which nothing is asked for. */

  const QUIET_CYCLE := Inputs(true, None, true, true, 32, false, false, None, true, true)

  lemma {:induction false} NeverBusy(e: Env, n: nat)
    requires e.Valid() && forall k :: e.ins(k) == QUIET_CYCLE
    ensures !e.At(n).req.busy
  {
    hide Clock, Stored, Env.At, Env.Valid, ReqNext;
    NextAt(e, 0);
    if n > 0 {
      NeverBusy(e, n - 1);
      NextAt(e, n - 1);
      EngineStream.PositionNext(e.At(n - 1), e.ins(n - 1));
      ClockReq(e.At(n - 1), e.ins(n - 1));
    }
  }

  lemma QuietIsFair(e: Env)
    requires e.Valid() && forall k :: e.ins(k) == QUIET_CYCLE
    ensures e.Conforms() && e.Fair()
  {
    hide Clock, Stored, Env.At, Env.Valid, InTable;
    forall n: nat ensures e.LinkAgain(n) && e.WritesAgain(n) && e.RoomAgain(n) {
      assert e.LinkFree(n) && e.ins(n).writesDone && e.ins(n).ramReady;
    }
    forall n: nat ensures !TooSoon(e.At(n), e.ins(n)) && !Fires(e.At(n), e.ins(n)) {
      NeverBusy(e, n);
    }
    NextAt(e, 0);
    forall n: nat, t: nat | t < e.cfg.tags ensures !Outstanding(e.At(n), t) {
      NothingInReset(e.cfg, t);
      StaysOut(e, 0, n, t);
      OutIsNotOutstanding(e.At(n), t);
    }
  }

  lemma NothingInReset(cfg: Config, t: nat)
    requires cfg.Valid() && Shaped(Reset(cfg)) && t < cfg.tags
    ensures !InTable(Reset(cfg), t)
  {
  }

  lemma OutIsNotOutstanding(s: State, t: nat)
    requires Sized(s) && t < s.cfg.tags && !InTable(s, t)
    ensures !Outstanding(s, t)
  {
  }
}
