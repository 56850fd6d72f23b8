/** The requests the engine issues for a descriptor are the ones that tile its byte range. */
module EngineStream {
  import opened Arith
  import opened TlpSizing
  import opened TlpStream
  import opened Ring
  import opened ReadEngine
  import opened EngineTags
  import opened EngineStatus
  import opened EngineCounts
  import opened EngineOps
  import C = CompletionPath

  // A request of the stream as the engine sends it: RAM addresses wrap, and a zero-length
  // operation enables no byte.
  function AsSent(t: ReadTlp, zeroLen: bool, g: C.Geometry): ReadTlp
    requires g.Valid()
  {
    t.(ramAddr := t.ramAddr % g.ramSpace,
       firstBe := if zeroLen then NO_LANES else t.firstBe, lastBe := if zeroLen then NO_LANES else t.lastBe)
  }

  function AllSent(segs: seq<ReadTlp>, zeroLen: bool, g: C.Geometry): (p: seq<ReadTlp>)
    requires g.Valid()
  {
    seq(|segs|, k requires 0 <= k < |segs| => AsSent(segs[k], zeroLen, g))
  }

  // The link configuration, which does not change while the engine runs.
  datatype Link = Link(maxDw: nat, rcb128: bool, geo: C.Geometry) {
    predicate Valid() {
      IsMaxDwords(maxDw) && geo.Valid()
    }

    predicate For(i: Inputs) {
      i.maxDw == maxDw && i.rcb128 == rcb128
    }
  }

  function Cut(l: Link, a: Addr, ramAddr: nat, count: nat, zeroLen: bool): seq<ReadTlp>
    requires l.Valid() && a.Valid() && count < LEN_SPACE
  {
    AllSent(Segments(a, ramAddr, count, l.maxDw, l.rcb128), zeroLen, l.geo)
  }

  // All requests of a descriptor; a zero-length one makes a single request.
  function Plan(l: Link, d: Descriptor): seq<ReadTlp>
    requires l.Valid() && d.addr.Valid() && d.len < LEN_SPACE
  {
    Cut(l, d.addr, d.ramAddr, if d.len == 0 then 1 else d.len, d.len == 0)
  }

  // The first request of a stream, and what is left after it.
  lemma CutStep(l: Link, a: Addr, ramAddr: nat, count: nat, zeroLen: bool)
    requires l.Valid() && a.Valid() && count < LEN_SPACE
    ensures var z := SizeTlp(a, count, l.maxDw, l.rcb128);
      && z.tlpCount <= count && z.next.Valid()
      && Cut(l, a, ramAddr, count, zeroLen)
      == [RequestFor(a, ramAddr % l.geo.ramSpace, zeroLen, z)]
         + if z.last then [] else Cut(l, z.next, ramAddr + z.tlpCount, count - z.tlpCount, zeroLen)
  {
    hide SizeTlp, Segments, Stream, RequestFor, AsSent, AllSent, C.Geometry.Valid, Addr.Valid;
    var z := SizeTlp(a, count, l.maxDw, l.rcb128);
    NextIsValid(a, count, l.maxDw, l.rcb128);
    SentRequest(a, ramAddr, z, zeroLen, l.geo);
    SentStream(l, a, ramAddr, count, zeroLen);
  }

  lemma SentStream(l: Link, a: Addr, ramAddr: nat, count: nat, zeroLen: bool)
    requires l.Valid() && a.Valid() && count < LEN_SPACE
    ensures var t := RequestFor(a, ramAddr, false, SizeTlp(a, count, l.maxDw, l.rcb128));
      && t.bytes <= count && (!t.last ==> t.next.Valid())
      && AllSent(Segments(a, ramAddr, count, l.maxDw, l.rcb128), zeroLen, l.geo)
      == [AsSent(t, zeroLen, l.geo)]
         + if t.last then []
           else AllSent(Segments(t.next, ramAddr + t.bytes, count - t.bytes, l.maxDw, l.rcb128), zeroLen, l.geo)
  {
    hide SizeTlp, Segments, Stream, RequestFor, AsSent, AllSent;
    SegmentsStep(a, ramAddr, count, l.maxDw, l.rcb128);
    var t := RequestFor(a, ramAddr, false, SizeTlp(a, count, l.maxDw, l.rcb128));
    if t.last {
      SentCons(t, [], zeroLen, l.geo);
    } else {
      SentCons(t, Segments(t.next, ramAddr + t.bytes, count - t.bytes, l.maxDw, l.rcb128), zeroLen, l.geo);
    }
  }

  lemma SentRequest(a: Addr, ramAddr: nat, z: TlpSize, zeroLen: bool, g: C.Geometry)
    requires g.Valid()
    ensures var t := RequestFor(a, ramAddr, false, z);
      && AsSent(t, zeroLen, g) == RequestFor(a, ramAddr % g.ramSpace, zeroLen, z)
      && t.last == z.last && t.next == z.next && t.bytes == z.tlpCount
  {
    hide FirstLanes, LastLanes, Both;
  }

  lemma SentCons(t: ReadTlp, rest: seq<ReadTlp>, zeroLen: bool, g: C.Geometry)
    requires g.Valid()
    ensures AllSent([t] + rest, zeroLen, g) == [AsSent(t, zeroLen, g)] + AllSent(rest, zeroLen, g)
    ensures AllSent([], zeroLen, g) == []
  {
  }

  // RAM addresses matter modulo the RAM's size.
  lemma {:induction false} CutWraps(l: Link, a: Addr, r1: nat, r2: nat, count: nat, zeroLen: bool)
    requires l.Valid() && a.Valid() && count < LEN_SPACE && r1 % l.geo.ramSpace == r2 % l.geo.ramSpace
    ensures Cut(l, a, r1, count, zeroLen) == Cut(l, a, r2, count, zeroLen)
    decreases count
  {
    hide SizeTlp, RequestFor, Cut;
    var z := SizeTlp(a, count, l.maxDw, l.rcb128);
    CutStep(l, a, r1, count, zeroLen);
    CutStep(l, a, r2, count, zeroLen);
    if !z.last {
      NotLastTakes(l, a, count);
      ModPlus(r1, z.tlpCount, l.geo.ramSpace);
      ModPlus(r2, z.tlpCount, l.geo.ramSpace);
      CutWraps(l, z.next, r1 + z.tlpCount, r2 + z.tlpCount, count - z.tlpCount, zeroLen);
    }
  }

  // The step with the registers' arithmetic.
  lemma CutNext(l: Link, a: Addr, ramAddr: nat, count: nat, zeroLen: bool)
    requires l.Valid() && a.Valid() && count < LEN_SPACE && ramAddr < l.geo.ramSpace
    ensures var z := SizeTlp(a, count, l.maxDw, l.rcb128);
      && z.tlpCount <= count && z.next.Valid()
      && Cut(l, a, ramAddr, count, zeroLen)
      == [RequestFor(a, ramAddr, zeroLen, z)]
         + if z.last then [] else Cut(l, z.next, C.Plus(l.geo, ramAddr, z.tlpCount),
             (count - z.tlpCount) % LEN_SPACE, zeroLen)
  {
    hide SizeTlp, RequestFor, Cut;
    var z := SizeTlp(a, count, l.maxDw, l.rcb128);
    CutStep(l, a, ramAddr, count, zeroLen);
    DivSmall(ramAddr, l.geo.ramSpace);
    DivSmall(count - z.tlpCount, LEN_SPACE);
    var r := C.Plus(l.geo, ramAddr, z.tlpCount);
    DivSmall(r, l.geo.ramSpace);
    if !z.last {
      CutWraps(l, z.next, ramAddr + z.tlpCount, r, count - z.tlpCount, zeroLen);
    }
  }

  lemma NotLastTakes(l: Link, a: Addr, count: nat)
    requires l.Valid() && a.Valid() && count < LEN_SPACE && !SizeTlp(a, count, l.maxDw, l.rcb128).last
    ensures SizeTlp(a, count, l.maxDw, l.rcb128).tlpCount > 0 && count > 0
  {
    hide SizeTlp;
    if count == 0 {
      SizeOfNothing(a, l.maxDw, l.rcb128);
    } else {
      SizeIsSound(a, count, l.maxDw, l.rcb128);
    }
  }

  /* In the engine. */

  // What is still to be issued for an operation.
  function Left(s: State, l: Link, op: nat): seq<ReadTlp>
    requires l.Valid() && Sized(s)
  {
    if s.req.busy && Held(s, op) then Cut(l, s.req.addr, s.req.ramAddr, s.req.count, s.req.zeroLen) else []
  }

  predicate Acceptable(d: Descriptor) {
    d.addr.Valid() && d.len < LEN_SPACE
  }

  // The requests issued for the last descriptor of a slot are the first ones of its plan, and
  // all of them once the slot is let go.
  ghost predicate OnPlan(s: State, l: Link, op: nat)
    requires l.Valid() && Sized(s) && op < s.cfg.ops
  {
    var h := s.history[op];
    h.accepted != [] ==>
      var d := h.accepted[|h.accepted| - 1];
      Acceptable(d) && h.requests + Left(s, l, op) == Plan(l, d)
  }

  ghost predicate StreamsOk(s: State, l: Link) {
    && Sized(s) && l.Valid() && l.geo == s.cfg.geo
    && forall op :: 0 <= op < s.cfg.ops ==> OnPlan(s, l, op)
  }

  // How the position in the descriptor moves.
  lemma PositionNext(b: State, i: Inputs)
    requires Sized(b) && i.Valid(b.cfg)
    ensures var q, z := ReqNext(b, i), Size(b, i);
      && (Accepts(b, i) ==> var d := i.desc.value;
           q.busy && q.addr == d.addr && q.ramAddr == d.ramAddr && q.zeroLen == (d.len == 0)
           && q.count == (if d.len == 0 then 1 else d.len))
      && (Fires(b, i) ==>
           q.busy == !z.last && q.addr == z.next && q.ramAddr == RamAfter(b, z) && q.zeroLen == b.req.zeroLen
           && q.count == (b.req.count - z.tlpCount) % LEN_SPACE)
      && (!Accepts(b, i) && !Fires(b, i) ==>
           q.busy == b.req.busy && q.addr == b.req.addr && q.ramAddr == b.req.ramAddr && q.zeroLen == b.req.zeroLen
           && q.count == b.req.count)
  {
    hide Size, RequestFor, RamAfter;
  }

  lemma AcceptedOnPlan(b: State, s: State, i: Inputs, l: Link)
    requires Alike(b, s) && i.Valid(b.cfg) && s.req == b.req && Offered(b) && l.Valid() && Accepts(b, i)
    ensures OnPlan(Issue(b, s, i), l, b.req.op)
  {
    hide Stored, Size, Issue, ReqNext, Cut, RequestFor, RamAfter;
    IssueEffect(b, s, i);
    IssueReq(b, s, i);
    PositionNext(b, i);
  }

  // A request that goes out is the next one of the plan.
  lemma FiredOnPlan(b: State, s: State, i: Inputs, l: Link)
    requires Alike(b, s) && i.Valid(b.cfg) && s.req == b.req && l.Valid() && l.geo == s.cfg.geo && l.For(i)
    requires b.req.opValid && s.history[b.req.op].accepted != [] && OnPlan(s, l, b.req.op) && Fires(b, i)
    ensures OnPlan(Issue(b, s, i), l, b.req.op)
  {
    hide Stored, Size, Issue, Left, RequestFor, RamAfter, Plan;
    var r, q, op, h := Issue(b, s, i), b.req, b.req.op, s.history[b.req.op];
    var tlp := RequestFor(q.addr, q.ramAddr, q.zeroLen, Size(b, i));
    IssueEffect(b, s, i);
    LeftNext(b, s, i, l);
    assert h.requests + ([tlp] + Left(r, l, op)) == (h.requests + [tlp]) + Left(r, l, op);
  }

  lemma LeftNext(b: State, s: State, i: Inputs, l: Link)
    requires Alike(b, s) && i.Valid(b.cfg) && s.req == b.req && l.Valid() && l.geo == s.cfg.geo && l.For(i)
    requires b.req.opValid && Fires(b, i)
    ensures Left(s, l, b.req.op)
         == [RequestFor(b.req.addr, b.req.ramAddr, b.req.zeroLen, Size(b, i))] + Left(Issue(b, s, i), l, b.req.op)
  {
    hide Stored, Issue, Cut, RequestFor, Size, RamAfter;
    CutOfReq(b, i, l);
    LeftAfter(b, s, i, l);
  }

  lemma CutOfReq(b: State, i: Inputs, l: Link)
    requires Sized(b) && i.Valid(b.cfg) && l.Valid() && l.geo == b.cfg.geo && l.For(i)
    ensures var q, z := b.req, Size(b, i);
      && RamAfter(b, z) < l.geo.ramSpace
      && Cut(l, q.addr, q.ramAddr, q.count, q.zeroLen)
      == [RequestFor(q.addr, q.ramAddr, q.zeroLen, z)]
         + if z.last then [] else Cut(l, z.next, RamAfter(b, z), (q.count - z.tlpCount) % LEN_SPACE, q.zeroLen)
  {
    hide Cut, RequestFor, SizeTlp;
    CutNext(l, b.req.addr, b.req.ramAddr, b.req.count, b.req.zeroLen);
  }

  lemma LeftAfter(b: State, s: State, i: Inputs, l: Link)
    requires Alike(b, s) && i.Valid(b.cfg) && s.req == b.req && l.Valid() && l.geo == s.cfg.geo
    requires b.req.opValid && Fires(b, i)
    ensures var z := Size(b, i);
      && RamAfter(b, z) < l.geo.ramSpace
      && Left(Issue(b, s, i), l, b.req.op)
      == if z.last then [] else Cut(l, z.next, RamAfter(b, z), (b.req.count - z.tlpCount) % LEN_SPACE, b.req.zeroLen)
  {
    hide Stored, Size, Issue, ReqNext, Cut;
    IssueEffect(b, s, i);
    IssueReq(b, s, i);
    PositionNext(b, i);
  }

  lemma IssueReq(b: State, s: State, i: Inputs)
    requires Alike(b, s) && i.Valid(b.cfg)
    ensures Issue(b, s, i).req == ReqNext(b, i)
  {
    hide Shaped, ReqNext;
  }

  lemma IssueStreams(b: State, s: State, i: Inputs, l: Link)
    requires Alike(b, s) && i.Valid(b.cfg) && s.req == b.req && OpsOk(s) && Offered(b) && StreamsOk(s, l) && l.For(i)
    ensures StreamsOk(Issue(b, s, i), l)
  {
    var r, op := Issue(b, s, i), b.req.op;
    assert OnPlan(s, l, op);
    if Accepts(b, i) {
      AcceptedOnPlan(b, s, i, l);
    } else if Fires(b, i) {
      BusyAccepted(s);
      FiredOnPlan(b, s, i, l);
    }
    hide Stored, OpsOk, Issue, OnPlan;
    forall x: nat | x < b.cfg.ops ensures OnPlan(r, l, x) {
      assert OnPlan(s, l, x);
      if x != op || !(Accepts(b, i) || Fires(b, i)) {
        OtherOnPlan(b, s, i, l, x);
      }
    }
  }

  lemma OtherOnPlan(b: State, s: State, i: Inputs, l: Link, x: nat)
    requires Alike(b, s) && i.Valid(b.cfg) && s.req == b.req && l.Valid() && x < b.cfg.ops && OnPlan(s, l, x)
    requires x != b.req.op || !(Accepts(b, i) || Fires(b, i))
    ensures OnPlan(Issue(b, s, i), l, x)
  {
    hide Stored, Issue, Size, ReqNext, Cut, RequestFor, RamAfter, Plan;
    IssueEffect(b, s, i);
    IssueReq(b, s, i);
    PositionNext(b, i);
  }

  // The descriptor in hand has been accepted into the held slot.
  lemma BusyAccepted(s: State)
    requires OpsOk(s) && s.req.busy
    ensures Live(s.history[s.req.op]) && s.history[s.req.op].accepted != []
  {
    assert OpOk(s, s.req.op);
    hide Running, Waiting, Closed, Stored;
  }

  // Only the issuing process moves along the plan.
  lemma StreamsElsewhere(s: State, r: State, l: Link)
    requires StreamsOk(s, l) && Sized(r) && r.cfg == s.cfg
    requires r.req.busy == s.req.busy && r.req.addr == s.req.addr && r.req.ramAddr == s.req.ramAddr
             && r.req.count == s.req.count && r.req.zeroLen == s.req.zeroLen
    requires s.req.busy ==> r.req.op == s.req.op && r.req.opValid == s.req.opValid
    requires forall x :: 0 <= x < s.cfg.ops ==>
               r.history[x].accepted == s.history[x].accepted && r.history[x].requests == s.history[x].requests
    ensures StreamsOk(r, l)
  {
    hide Cut, Plan;
    forall x: nat | x < s.cfg.ops ensures OnPlan(r, l, x) {
      assert OnPlan(s, l, x);
    }
  }

  lemma ReportingHistory(b: State, i: Inputs)
    requires Shaped(b) && Formed(b)
    ensures var r := Reporting(b, i);
      forall x :: 0 <= x < b.cfg.ops ==>
        r.history[x].accepted == b.history[x].accepted && r.history[x].requests == b.history[x].requests
  {
    hide Stored, Formed, Reporting;
    PopEffect(b, i);
  }

  // With the link configuration unchanged, the engine stays on plan.
  lemma ClockStreams(b: State, i: Inputs, l: Link)
    requires OpsOk(b) && Offered(b) && TagPlaces(b) && CplTag(b) && StatusesOk(b) && i.Valid(b.cfg)
    requires StreamsOk(b, l) && l.For(i)
    ensures StreamsOk(Clock(b, i), l)
  {
    hide OpsOk, Offered, TagPlaces, CplTag, StatusesOk, StreamsOk;
    StreamsBefore(b, i, l);
    StreamsAfter(b, Completing(b, Reporting(b, i), i), i, l);
  }

  // Up to the issuing process nothing moves along the plan.
  lemma StreamsBefore(b: State, i: Inputs, l: Link)
    requires OpsOk(b) && Offered(b) && TagPlaces(b) && CplTag(b) && StatusesOk(b) && i.Valid(b.cfg)
    requires StreamsOk(b, l) && l.For(i)
    ensures var t := Completing(b, Reporting(b, i), i);
      Shaped(b) && (b.req.busy ==> b.req.opValid) && t.req == b.req && OpsOk(t) && StreamsOk(t, l)
  {
    var t := Completing(b, Reporting(b, i), i);
    assert b.req.busy ==> b.req.opValid;
    BeforeRequesting(b, i);
    ReportingHistory(b, i);
    hide Stored, OpsOk, StreamsOk, TagPlaces, CplTag, Room, Formed;
    hide Undisturbed, Unfinished, Reporting, Completing;
    StreamsElsewhere(b, t, l);
  }

  // The issuing process and those behind it.
  lemma StreamsAfter(b: State, t: State, i: Inputs, l: Link)
    requires Alike(b, t) && i.Valid(b.cfg) && t.req == b.req && OpsOk(t) && Offered(b) && StreamsOk(t, l) && l.For(i)
    requires b.req.busy ==> b.req.opValid
    ensures StreamsOk(Compare(b, Requesting(b, t, i)), l)
  {
    hide Stored, OpsOk, StreamsOk, Issue, FetchTag;
    IssueStreams(b, t, i, l);
    BusyHeld(b, t, i);
    StreamsElsewhere(Issue(b, t, i), Compare(b, Requesting(b, t, i)), l);
  }

  // A busy engine keeps its operation tag.
  lemma BusyHeld(b: State, s: State, i: Inputs)
    requires Alike(b, s) && i.Valid(b.cfg) && s.req == b.req && Offered(b) && (b.req.busy ==> b.req.opValid)
    ensures var q := Issue(b, s, i); q.req.busy ==> q.req.opValid && FetchOp(b, q).req == q.req
  {
    IssueReq(b, s, i);
    PositionNext(b, i);
    hide Shaped, Issue, Size, RequestFor, RamAfter;
  }
}
