/** What goes out on the link. */
module EngineLink {
  import opened Options
  import opened Arith
  import opened TlpSizing
  import opened TlpStream
  import opened Ring
  import opened ReadEngine
  import opened EngineTags
  import opened EngineCredits
  import opened EngineStatus
  import opened EngineOps
  import opened EngineStream
  import opened EngineData
  import opened EngineFates
  import opened EngineRuns
  import C = CompletionPath

  // A request with the tag in its header.
  datatype Sent = Sent(tlp: ReadTlp, tag: nat)

  // What the link takes at this edge.
  function Taken(b: State, i: Inputs): seq<Sent> {
    if b.req.txValid && i.txReady then [Sent(b.req.tx, b.req.txTag)] else []
  }

  // What the transmit register holds.
  function Waiting(s: State): seq<Sent> {
    if s.req.txValid then [Sent(s.req.tx, s.req.txTag)] else []
  }

  // What has just been issued: the last request noted for the operation whose table entry is on
  // its way, and the tag of that entry.
  function Issued(s: State): seq<Sent>
    requires Shaped(s)
  {
    var op := s.start.entry.op;
    if s.start.en && s.history[op].requests != [] then
      [Sent(s.history[op].requests[|s.history[op].requests| - 1], s.start.tag)]
    else []
  }

  // The transmit register after the edge.
  lemma TransmitNext(b: State, i: Inputs)
    requires Sized(b) && i.Valid(b.cfg)
    ensures var q := ReqNext(b, i);
      && (Fires(b, i) ==>
            && (!b.req.txValid || i.txReady) && q.txValid && q.txTag == b.req.tag
            && q.tx == RequestFor(b.req.addr, b.req.ramAddr, b.req.zeroLen, Size(b, i)))
      && (!Fires(b, i) ==> q.txValid == (b.req.txValid && !i.txReady))
      && (b.req.txValid && !i.txReady ==> q.txValid && q.tx == b.req.tx && q.txTag == b.req.txTag)
  {
    hide Size, RequestFor, RamAfter;
  }

  lemma ClockTransmit(b: State, i: Inputs)
    requires Shaped(b) && i.Valid(b.cfg)
    ensures var q, r := ReqNext(b, i), Clock(b, i).req; r.txValid == q.txValid && r.tx == q.tx && r.txTag == q.txTag
    ensures var q, r := ReqNext(b, i), Clock(b, i).req; r.ramAddr == q.ramAddr
  {
    var t := Completing(b, Reporting(b, i), i);
    IssueReq(b, t, i);
    hide Stored, Reporting, Completing, Issue, ReqNext;
  }

  // A request goes out under the tag whose table entry is written for it: the entry names the
  // operation and the RAM address behind the request.
  lemma IssuedNext(b: State, i: Inputs)
    requires Good(b) && i.Valid(b.cfg)
    ensures var r, z := Clock(b, i), Size(b, i);
      var x, tlp := Issued(r), RequestFor(b.req.addr, b.req.ramAddr, b.req.zeroLen, z);
      && x == (if Fires(b, i) then [Sent(tlp, b.req.tag)] else [])
      && (x != [] ==> r.start.entry.op == b.req.op
                      && r.start.entry.ramEnd == C.Plus(b.cfg.geo, x[0].tlp.ramAddr, x[0].tlp.bytes))
  {
    hide Good, TagPlaces, CplTag, Room, Formed, Counted, Gated, OpsOk, Offered, Stored, Clock, Size, C.Plus;
    GoodParts(b);
    StartNext(b, i);
    BytesOfRequest(b.req.addr, b.req.ramAddr, b.req.zeroLen, Size(b, i));
    hide RequestFor;
    if Fires(b, i) {
      StartOp(b, i);
      HistoryNext(b, i, b.req.op);
    }
  }

  // What was waiting and what is issued is taken or waits, in this order.
  lemma LinkNext(b: State, i: Inputs)
    requires Good(b) && i.Valid(b.cfg)
    ensures var r := Clock(b, i);
      && Waiting(b) + Issued(r) == Taken(b, i) + Waiting(r)
      && (b.req.txValid && !i.txReady ==> Waiting(r) == Waiting(b))
  {
    hide Good, Stored, Clock, Size, RequestFor, ReqNext, Issued, C.Plus;
    assert Shaped(b) by { GoodParts(b); }
    IssuedNext(b, i);
    TransmitNext(b, i);
    ClockTransmit(b, i);
  }

  // A request that goes out carries in its header the tag its table entry is written under,
  // and that tag was nowhere in flight.
  lemma SentTagIsFree(b: State, i: Inputs)
    requires Good(b) && i.Valid(b.cfg) && Fires(b, i)
    ensures var r := Clock(b, i); var t := r.req.txTag;
      && r.req.txValid && r.start.en && r.start.tag == t < b.cfg.tags && r.start.entry.op == b.req.op
      && r.start.entry.ramEnd == C.Plus(b.cfg.geo, r.req.tx.ramAddr, r.req.tx.bytes)
      && !b.table[t].Active() && !(b.start.en && b.start.tag == t)
      && t !in b.low.Contents() && t !in b.high.Contents()
  {
    hide Good, Stored, Clock, Size, RequestFor, ReqNext, C.Plus, Ring.Contents;
    assert Shaped(b) by { GoodParts(b); }
    IssuedNext(b, i);
    TransmitNext(b, i);
    ClockTransmit(b, i);
    IssuedTagIsFree(b, i);
  }

  // A request goes out exactly when there is a descriptor and a tag for it, the link has room, and
  // the credits of the requests in flight are below both limits.
  lemma SendsWithRoom(b: State, i: Inputs)
    requires Good(b) && i.Valid(b.cfg)
    ensures Issued(Clock(b, i)) != [] <==>
              && b.req.busy && b.req.tagValid && i.txAvailable && (!b.req.txValid || i.txReady)
              && InFlight(HeaderCredits, b) < b.cfg.cplhLimit && InFlight(DataCredits, b) < b.cfg.cpldLimit
  {
    IssuedNext(b, i);
    GoodParts(b);
    hide Good, TagPlaces, CplTag, StatusesOk, OpsOk, Offered, Clock, Size, RequestFor, Issued, InFlight;
  }

  /* Whole runs. */

  // Observed: the descriptors accepted, the requests issued, and those taken by the link.
  datatype Log = Log(accepted: seq<Descriptor>, issued: seq<Sent>, taken: seq<Sent>)

  const NO_LOG := Log([], [], [])

  function Noted(b: State, i: Inputs, log: Log): Log
    requires Shaped(b) && i.Valid(b.cfg)
  {
    Log(log.accepted + if b.req.descReady && i.desc.Some? then [i.desc.value] else [],
        log.issued + Issued(Clock(b, i)), log.taken + Taken(b, i))
  }

  function Tlps(xs: seq<Sent>): seq<ReadTlp> {
    seq(|xs|, k requires 0 <= k < |xs| => xs[k].tlp)
  }

  // The requests of all descriptors, in the order of the descriptors.
  function Planned(l: Link, ds: seq<Descriptor>): seq<ReadTlp>
    requires l.Valid() && forall d :: d in ds ==> Acceptable(d)
  {
    if ds == [] then [] else
      var front, d := ds[..|ds| - 1], ds[|ds| - 1];
      assert forall x :: x in front ==> x in ds;
      assert d in ds && Acceptable(d);
      Planned(l, front) + Plan(l, d)
  }

  // What is still to be issued for the descriptor in hand.
  function InHand(s: State, l: Link): seq<ReadTlp>
    requires Sized(s) && l.Valid()
  {
    if s.req.busy then Cut(l, s.req.addr, s.req.ramAddr, s.req.count, s.req.zeroLen) else []
  }

  ghost predicate LinkOk(s: State, l: Link, log: Log) {
    && Shaped(s) && l.Valid() && l.geo == s.cfg.geo
    && (forall d :: d in log.accepted ==> Acceptable(d))
    && log.issued == log.taken + Waiting(s)
    && Tlps(log.issued) + InHand(s, l) == Planned(l, log.accepted)
  }

  lemma TlpsConcat(xs: seq<Sent>, ys: seq<Sent>)
    ensures Tlps(xs + ys) == Tlps(xs) + Tlps(ys)
  {
  }

  lemma PlannedOneMore(l: Link, ds: seq<Descriptor>, d: Descriptor)
    requires l.Valid() && Acceptable(d) && forall x :: x in ds ==> Acceptable(x)
    ensures (forall x :: x in ds + [d] ==> Acceptable(x)) && Planned(l, ds + [d]) == Planned(l, ds) + Plan(l, d)
  {
    assert (ds + [d])[..|ds|] == ds;
  }

  // The descriptor in hand after the edge: the one just taken, or what is left of the one before
  // behind the request issued.
  lemma InHandNext(b: State, i: Inputs, l: Link)
    requires Good(b) && i.Valid(b.cfg) && l.Valid() && l.geo == b.cfg.geo && l.For(i)
    ensures var r := Clock(b, i);
      if b.req.descReady && i.desc.Some? then
        InHand(b, l) == [] && Issued(r) == [] && Acceptable(i.desc.value) && InHand(r, l) == Plan(l, i.desc.value)
      else InHand(b, l) == Tlps(Issued(r)) + InHand(r, l)
  {
    hide Good, TagPlaces, CplTag, Room, Formed, Counted, Gated, OpsOk, Stored, Clock, Size, C.Plus, RequestFor, Cut;
    hide ReqNext, RamAfter, Issued;
    GoodParts(b);
    IssuedNext(b, i);
    ClockReq(b, i);
    ClockTransmit(b, i);
    PositionNext(b, i);
    if Fires(b, i) {
      CutOfReq(b, i, l);
    }
  }

  lemma ClockLink(b: State, i: Inputs, l: Link, log: Log)
    requires Good(b) && i.Valid(b.cfg) && l.For(i) && LinkOk(b, l, log)
    ensures LinkOk(Clock(b, i), l, Noted(b, i, log))
  {
    hide Good, Stored, Clock, Issued, Taken, Waiting, InHand, Planned, Tlps, Plan;
    var r := Clock(b, i);
    LinkNext(b, i);
    InHandNext(b, i, l);
    TlpsConcat(log.issued, Issued(r));
    var more, left := Tlps(Issued(r)), InHand(r, l);
    if b.req.descReady && i.desc.Some? {
      PlannedOneMore(l, log.accepted, i.desc.value);
      NoTlps();
      assert Tlps(log.issued) + [] == Tlps(log.issued);
    } else {
      assert log.accepted + [] == log.accepted;
      assert (Tlps(log.issued) + more) + left == Tlps(log.issued) + (more + left);
    }
    assert (log.taken + Waiting(b)) + Issued(r) == log.taken + (Waiting(b) + Issued(r));
    assert log.taken + (Taken(b, i) + Waiting(r)) == (log.taken + Taken(b, i)) + Waiting(r);
  }

  lemma NoTlps()
    ensures Tlps([]) == []
  {
  }

  ghost function Logged(s: State, ins: seq<Inputs>, log: Log): Log
    requires Shaped(s) && Conforming(s, ins)
    decreases |ins|
  {
    hide Shaped, Clock, TooSoon;
    if ins == [] then log else Logged(Clock(s, ins[0]), ins[1..], Noted(s, ins[0], log))
  }

  lemma {:induction false} RunKeepsLink(s: State, ins: seq<Inputs>, l: Link, log: Log)
    requires Good(s) && Conforming(s, ins) && LinkOk(s, l, log) && forall i :: i in ins ==> l.For(i)
    ensures LinkOk(Run(s, ins), l, Logged(s, ins, log))
    decreases |ins|
  {
    if ins != [] {
      hide Good, Clock, TooSoon, Shaped, LinkOk, Noted;
      ClockGood(s, ins[0]);
      ClockLink(s, ins[0], l, log);
      RunKeepsLink(Clock(s, ins[0]), ins[1..], l, Noted(s, ins[0], log));
    }
  }

  // Over every run from reset: what the link has taken, what waits and what is still to be
  // issued are, in this order, the requests of the accepted descriptors in theirs.
  lemma EveryRunSends(cfg: Config, ins: seq<Inputs>, l: Link)
    requires cfg.Valid() && Shaped(Reset(cfg)) && Conforming(Reset(cfg), ins)
    requires l.Valid() && l.geo == cfg.geo && forall i :: i in ins ==> l.For(i)
    ensures var s, log := Run(Reset(cfg), ins), Logged(Reset(cfg), ins, NO_LOG);
      && (forall d :: d in log.accepted ==> Acceptable(d))
      && log.issued == log.taken + Waiting(s)
      && Tlps(log.taken) + Tlps(Waiting(s)) + InHand(s, l) == Planned(l, log.accepted)
  {
    ResetGood(cfg);
    ResetLink(cfg, l);
    hide Good, Reset, Shaped, InHand, Planned, Waiting, Tlps;
    RunKeepsLink(Reset(cfg), ins, l, NO_LOG);
    TlpsConcat(Logged(Reset(cfg), ins, NO_LOG).taken, Waiting(Run(Reset(cfg), ins)));
  }

  lemma ResetLink(cfg: Config, l: Link)
    requires cfg.Valid() && Shaped(Reset(cfg)) && l.Valid() && l.geo == cfg.geo
    ensures LinkOk(Reset(cfg), l, NO_LOG)
  {
    hide Stored, Filled;
  }
}
