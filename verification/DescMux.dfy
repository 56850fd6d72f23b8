/** Descriptors of several ports merged into one stream, and their statuses handed back. */
module DescMux {
  import opened Options
  import opened Arith
  import opened PriorityEncoder
  import A = Arbiter
  import S = Skid

  datatype Desc = Desc(dmaAddr: nat, ramSel: nat, ramAddr: nat, imm: nat, immEn: bool, len: nat, tag: nat)

  // `tagSpace` is the number of tags a port has, `tagBase` the weight of the port bits put on
  // top of them towards the DMA interface.
  datatype Config = Config(ports: nat, roundRobin: bool, lsbFirst: bool, tagSpace: nat, tagBase: nat) {
    predicate Valid() {
      1 <= ports && 0 < tagSpace && 0 < tagBase && tagBase % tagSpace == 0
    }

    // The arbiter holds a grant until it is acknowledged.
    function Arb(): A.Config {
      A.Config(ports, roundRobin, true, true, lsbFirst)
    }
  }

  // One input register for each port.
  datatype State = State(regs: seq<Option<Desc>>, arb: A.State, skid: S.Skid<Desc>)

  datatype Inputs = Inputs(descs: seq<Option<Desc>>, ready: bool)

  predicate TagsFit(c: Config, ds: seq<Option<Desc>>) {
    forall k :: 0 <= k < |ds| ==> ds[k].Some? ==> ds[k].value.tag < c.tagSpace
  }

  predicate Fits(c: Config, s: State) {
    && c.Valid() && |s.regs| == c.ports && A.Fits(c.Arb(), s.arb) && TagsFit(c, s.regs)
    && S.Ok(s.skid) && (s.skid.out.None? ==> s.skid.temp.None?)
  }

  predicate InputsFit(c: Config, i: Inputs) {
    |i.descs| == c.ports && TagsFit(c, i.descs)
  }

  function Initial(c: Config): State {
    State(seq(c.ports, _ => None), A.Initial(c.Arb()), S.Skid(None, None, false))
  }

  // The port on top of the tag.
  function Extend(c: Config, port: nat, d: Desc): Desc {
    d.(tag := port * c.tagBase + d.tag)
  }

  predicate Ready(c: Config, s: State, p: nat)
    requires Fits(c, s) && p < c.ports
  {
    s.regs[p].None? || (s.skid.open && A.Granted(s.arb, p))
  }

  // The granted port's descriptor, when the output stage is open.
  function Selected(c: Config, s: State): (d: Option<Desc>)
    requires Fits(c, s)
    ensures d.Some? ==> s.skid.open
  {
    var r := s.regs[s.arb.port];
    if r.Some? && s.skid.open && s.arb.valid then Some(Extend(c, s.arb.port, r.value)) else None
  }

  // A granted port's request is judged by what it offers next.
  function Requests(c: Config, s: State, i: Inputs): (r: seq<bool>)
    requires Fits(c, s) && InputsFit(c, i)
    ensures |r| == c.ports
  {
    seq(c.ports, p requires 0 <= p < c.ports => if A.Granted(s.arb, p) then i.descs[p].Some? else s.regs[p].Some?)
  }

  function Acknowledges(c: Config, s: State): (r: seq<bool>)
    requires Fits(c, s)
    ensures |r| == c.ports
  {
    seq(c.ports, p requires 0 <= p < c.ports => A.Granted(s.arb, p) && s.regs[p].Some? && s.skid.open)
  }

  function Step(c: Config, s: State, i: Inputs): (t: State)
    requires Fits(c, s) && InputsFit(c, i)
    ensures Fits(c, t)
  {
    var selected := Selected(c, s);
    S.SkidKeeps(s.skid, selected, i.ready);
    State(seq(c.ports, p requires 0 <= p < c.ports => if Ready(c, s, p) then i.descs[p] else s.regs[p]),
          A.Next(c.Arb(), s.arb, Requests(c, s, i), Acknowledges(c, s)),
          S.Clock(s.skid, selected, i.ready))
  }

  /* Tags and ports. */

  // A status goes back to the port on top of its tag, under the rest of the tag; a single port
  // has no bits there.
  function PortOf(c: Config, tag: nat): nat
    requires c.Valid()
  {
    if c.ports > 1 then tag / c.tagBase else 0
  }

  function TagOf(c: Config, tag: nat): nat
    requires c.Valid()
  {
    tag % c.tagSpace
  }

  lemma StatusReturns(c: Config, port: nat, d: Desc)
    requires c.Valid() && port < c.ports && d.tag < c.tagSpace
    ensures var tag := Extend(c, port, d).tag;
      PortOf(c, tag) == port && TagOf(c, tag) == d.tag
  {
    var tag, k := Extend(c, port, d).tag, c.tagBase / c.tagSpace;
    assert c.tagBase == k * c.tagSpace;
    MulOutgrows(k, c.tagSpace);
    DivMod(tag, c.tagBase, port, d.tag);
    assert port * (k * c.tagSpace) == (port * k) * c.tagSpace;
    DivMod(tag, c.tagSpace, port * k, d.tag);
  }

  /* Every descriptor once, in the order of its port. */

  // The descriptors of one port in the merged stream, as the port sent them.
  function OfPort(c: Config, ds: seq<Desc>, p: nat): seq<Desc>
    requires c.Valid()
  {
    if ds == [] then []
    else
      OfPort(c, ds[..|ds| - 1], p)
      + var d := ds[|ds| - 1]; if PortOf(c, d.tag) == p then [d.(tag := TagOf(c, d.tag))] else []
  }

  // What each port had accepted, and what went out.
  datatype Log = Log(accepted: seq<seq<Desc>>, sent: seq<Desc>)

  function Note(c: Config, s: State, log: Log, i: Inputs): Log
    requires Fits(c, s) && InputsFit(c, i) && |log.accepted| == c.ports
  {
    Log(seq(c.ports, p requires 0 <= p < c.ports => log.accepted[p] + if Ready(c, s, p) then Held(i.descs[p]) else []),
        log.sent + S.Taken(s.skid, i.ready))
  }

  // Sent, in the output stage or in the input register.
  ghost predicate Accounted(c: Config, s: State, log: Log)
    requires Fits(c, s)
  {
    && |log.accepted| == c.ports
    && forall p :: 0 <= p < c.ports ==>
         log.accepted[p] == OfPort(c, log.sent + S.Contents(s.skid), p) + Held(s.regs[p])
  }

  lemma OfPortAppend(c: Config, ds: seq<Desc>, d: Desc, p: nat)
    requires c.Valid()
    ensures OfPort(c, ds + [d], p)
         == OfPort(c, ds, p) + if PortOf(c, d.tag) == p then [d.(tag := TagOf(c, d.tag))] else []
  {
    assert (ds + [d])[..|ds|] == ds;
  }

  // The merged stream, sent and not, grows by the selected descriptor.
  lemma StreamGrows(c: Config, s: State, log: Log, i: Inputs)
    requires Fits(c, s) && InputsFit(c, i) && |log.accepted| == c.ports
    ensures Note(c, s, log, i).sent + S.Contents(Step(c, s, i).skid)
         == log.sent + S.Contents(s.skid) + Held(Selected(c, s))
  {
    S.SkidKeeps(s.skid, Selected(c, s), i.ready);
    var taken, after := S.Taken(s.skid, i.ready), S.Contents(Step(c, s, i).skid);
    assert (log.sent + taken) + after == log.sent + (taken + after);
  }

  // The port's share of the stream grows by what leaves its register.
  lemma ShareGrows(c: Config, s: State, stream: seq<Desc>, p: nat)
    requires Fits(c, s) && p < c.ports
    ensures OfPort(c, stream + Held(Selected(c, s)), p)
         == OfPort(c, stream, p) + if s.skid.open && A.Granted(s.arb, p) then Held(s.regs[p]) else []
  {
    var d := Selected(c, s);
    if d.Some? {
      StatusReturns(c, s.arb.port, s.regs[s.arb.port].value);
      OfPortAppend(c, stream, d.value, p);
      hide OfPort, PortOf, TagOf;
    } else {
      assert stream + Held(d) == stream;
    }
  }

  lemma PortAccounted(c: Config, s: State, log: Log, i: Inputs, p: nat)
    requires Fits(c, s) && InputsFit(c, i) && Accounted(c, s, log) && p < c.ports
    ensures var t, l := Step(c, s, i), Note(c, s, log, i);
      l.accepted[p] == OfPort(c, l.sent + S.Contents(t.skid), p) + Held(t.regs[p])
  {
    StreamGrows(c, s, log, i);
    var before := log.sent + S.Contents(s.skid);
    ShareGrows(c, s, before, p);
    assert log.accepted[p] == OfPort(c, before, p) + Held(s.regs[p]);
    hide OfPort, PortOf, TagOf, Selected, S.Clock, S.Contents, A.Next, S.Taken, Requests, Acknowledges;
  }

  // For any number of ports, under any stalls and either kind of arbitration: what a port had
  // accepted has been sent once and in order, or is still in the output stage or its register.
  lemma StepAccounted(c: Config, s: State, log: Log, i: Inputs)
    requires Fits(c, s) && InputsFit(c, i) && Accounted(c, s, log)
    ensures Accounted(c, Step(c, s, i), Note(c, s, log, i))
  {
    hide OfPort, Step;
    forall p: nat | p < c.ports
      ensures Note(c, s, log, i).accepted[p]
           == OfPort(c, Note(c, s, log, i).sent + S.Contents(Step(c, s, i).skid), p) + Held(Step(c, s, i).regs[p])
    {
      PortAccounted(c, s, log, i, p);
    }
  }

  /* Whole runs. */

  predicate AllFit(c: Config, ins: seq<Inputs>) {
    forall i :: i in ins ==> InputsFit(c, i)
  }

  function Run(c: Config, ins: seq<Inputs>): (s: State)
    requires c.Valid() && AllFit(c, ins)
    ensures Fits(c, s)
  {
    if ins == [] then Initial(c) else Step(c, Run(c, ins[..|ins| - 1]), ins[|ins| - 1])
  }

  function Noted(c: Config, ins: seq<Inputs>): (l: Log)
    requires c.Valid() && AllFit(c, ins)
    ensures |l.accepted| == c.ports
  {
    if ins == [] then Log(seq(c.ports, _ => []), [])
    else Note(c, Run(c, ins[..|ins| - 1]), Noted(c, ins[..|ins| - 1]), ins[|ins| - 1])
  }

  lemma {:induction false} RunIsAccounted(c: Config, ins: seq<Inputs>)
    requires c.Valid() && AllFit(c, ins)
    ensures Accounted(c, Run(c, ins), Noted(c, ins))
  {
    if ins != [] {
      var n := |ins| - 1;
      RunIsAccounted(c, ins[..n]);
      hide Accounted, Step, Note, Fits, InputsFit;
      StepAccounted(c, Run(c, ins[..n]), Noted(c, ins[..n]), ins[n]);
    }
  }

  /* Nobody waits forever. */

  // A grant is for a register that is full. In turn-taking, `m` is the last port granted.
  ghost predicate Turn(c: Config, s: State, m: nat)
    requires Fits(c, s)
  {
    && (s.arb.valid ==> s.regs[s.arb.port].Some?)
    && (c.roundRobin ==> A.InTurn(c.Arb(), s.arb, m) && (s.arb.valid ==> m == s.arb.port))
  }

  lemma TurnStarts(c: Config)
    requires c.Valid()
    ensures Turn(c, Initial(c), if c.lsbFirst then c.ports - 1 else 0)
  {
    A.StartsInTurn(c.Arb());
  }

  // What a decision does to the turn.
  lemma DecisionTurns(c: Config, s: State, i: Inputs, m: nat)
    requires Fits(c, s) && InputsFit(c, i) && Turn(c, s, m)
    ensures var t := Step(c, s, i).arb;
      c.roundRobin && !A.Holds(c.Arb(), s.arb, Requests(c, s, i), Acknowledges(c, s)) ==>
        A.InTurn(c.Arb(), t, if t.valid then t.port else m)
  {
  }

  lemma StepTurns(c: Config, s: State, i: Inputs, m: nat)
    requires Fits(c, s) && InputsFit(c, i) && Turn(c, s, m)
    ensures var t := Step(c, s, i); Turn(c, t, if t.arb.valid then t.arb.port else m)
  {
    var t := Step(c, s, i);
    DecisionTurns(c, s, i, m);
    hide S.Clock;
    if t.arb.valid {
      GrantedIsFull(c, s, i);
    }
  }

  lemma GrantedIsFull(c: Config, s: State, i: Inputs)
    requires Fits(c, s) && InputsFit(c, i) && (s.arb.valid ==> s.regs[s.arb.port].Some?)
    ensures var t := Step(c, s, i); t.arb.valid ==> t.regs[t.arb.port].Some?
  {
    hide S.Clock, A.Pick;
  }

  // Transfers of other ports before the next one of port `p`.
  function OthersFirst(c: Config, s: State, ins: seq<Inputs>, p: nat): (n: nat)
    requires Fits(c, s) && AllFit(c, ins)
    decreases |ins|
  {
    if ins == [] || (Selected(c, s).Some? && s.arb.port == p) then 0
    else (if Selected(c, s).Some? then 1 else 0) + OthersFirst(c, Step(c, s, ins[0]), ins[1..], p)
  }

  // How many can come first: the port granted now, and those between it and `p` in turn.
  function Ahead(c: Config, s: State, m: nat, p: nat): (n: nat)
    requires Fits(c, s) && m < c.ports && p < c.ports
    requires s.arb.valid ==> m == s.arb.port
    ensures n < c.ports
  {
    if A.Granted(s.arb, p) then 0
    else A.Between(c.Arb(), m, p) + if s.arb.valid then 1 else 0
  }

  // A full register that is not read keeps its descriptor, and each transfer brings its turn closer.
  lemma StepWaits(c: Config, s: State, i: Inputs, m: nat, p: nat)
    requires Fits(c, s) && InputsFit(c, i) && Turn(c, s, m) && c.roundRobin && p < c.ports && s.regs[p].Some?
    requires !(Selected(c, s).Some? && s.arb.port == p)
    ensures var t := Step(c, s, i); var k := if t.arb.valid then t.arb.port else m;
      && t.regs[p] == s.regs[p]
      && (if Selected(c, s).Some? then 1 else 0) + Ahead(c, t, k, p) <= Ahead(c, s, m, p)
  {
    var a, request, acknowledge := c.Arb(), Requests(c, s, i), Acknowledges(c, s);
    assert !A.Granted(s.arb, p) ==> request[p];
    if A.Holds(a, s.arb, request, acknowledge) {
      assert !s.skid.open;
    } else {
      assert !A.Granted(s.arb, p);
      A.WaitShrinks(a, s.arb, request, acknowledge, m, p);
    }
    hide S.Clock, A.Pick;
  }

  // With turns, a descriptor in its input register is passed over by fewer transfers than there
  // are ports, over every run.
  lemma {:induction false} HeldIsServed(c: Config, s: State, ins: seq<Inputs>, m: nat, p: nat)
    requires Fits(c, s) && AllFit(c, ins) && Turn(c, s, m) && c.roundRobin && p < c.ports && s.regs[p].Some?
    ensures OthersFirst(c, s, ins, p) <= Ahead(c, s, m, p) < c.ports
    decreases |ins|
  {
    if ins != [] && !(Selected(c, s).Some? && s.arb.port == p) {
      hide Step, Turn, Ahead, Selected, Fits, InputsFit;
      var t := Step(c, s, ins[0]);
      StepTurns(c, s, ins[0], m);
      StepWaits(c, s, ins[0], m, p);
      HeldIsServed(c, t, ins[1..], if t.arb.valid then t.arb.port else m, p);
    }
  }

  lemma {:induction false} RunTurns(c: Config, ins: seq<Inputs>) returns (m: nat)
    requires c.Valid() && AllFit(c, ins)
    ensures Turn(c, Run(c, ins), m)
  {
    m := if c.lsbFirst then c.ports - 1 else 0;
    if ins == [] {
      TurnStarts(c);
    } else {
      var n := |ins| - 1;
      var k := RunTurns(c, ins[..n]);
      StepTurns(c, Run(c, ins[..n]), ins[n], k);
      m := if Run(c, ins).arb.valid then Run(c, ins).arb.port else k;
      hide Step, Turn, Fits, InputsFit;
    }
  }

  // So in whatever state a run has led to.
  lemma NobodyStarves(c: Config, before: seq<Inputs>, ins: seq<Inputs>, p: nat)
    requires c.Valid() && c.roundRobin && AllFit(c, before) && AllFit(c, ins) && p < c.ports
    requires Run(c, before).regs[p].Some?
    ensures OthersFirst(c, Run(c, before), ins, p) < c.ports
  {
    hide Run, Turn, OthersFirst, Fits;
    var m := RunTurns(c, before);
    HeldIsServed(c, Run(c, before), ins, m, p);
  }

  // A port's descriptor is accepted when its register is empty or is emptied at this edge, and stays
  // outside otherwise.
  lemma TakesWhatIsOffered(c: Config, s: State, i: Inputs, p: nat)
    requires Fits(c, s) && InputsFit(c, i) && p < c.ports
    ensures var t, leaves := Step(c, s, i), Selected(c, s).Some? && s.arb.port == p;
      t.regs[p] == if s.regs[p].None? || leaves then i.descs[p] else s.regs[p]
  {
    hide S.Clock, A.Next;
  }

  /* With a ready reader everything goes out. */

  predicate Quiet(c: Config, i: Inputs) {
    InputsFit(c, i) && i.ready && forall p :: 0 <= p < c.ports ==> i.descs[p].None?
  }

  function Full(regs: seq<Option<Desc>>): nat {
    if regs == [] then 0 else |Held(regs[0])| + Full(regs[1..])
  }

  lemma {:induction false} FullUpdate(regs: seq<Option<Desc>>, p: nat)
    requires p < |regs|
    ensures Full(regs[p := None]) == Full(regs) - |Held(regs[p])|
  {
    if p == 0 {
      assert regs[p := None][1..] == regs[1..];
    } else {
      assert regs[p := None][1..] == regs[1..][p - 1 := None];
      FullUpdate(regs[1..], p - 1);
    }
  }

  lemma {:induction false} SomeFull(regs: seq<Option<Desc>>)
    ensures Full(regs) > 0 <==> exists p :: 0 <= p < |regs| && regs[p].Some?
  {
    if regs != [] {
      SomeFull(regs[1..]);
      if Full(regs[1..]) > 0 {
        var p :| 0 <= p < |regs[1..]| && regs[1..][p].Some?;
        assert regs[p + 1].Some?;
      }
      forall p | 0 <= p < |regs| && regs[p].Some? ensures Full(regs) > 0 {
        assert p == 0 || regs[1..][p - 1].Some?;
      }
    }
  }

  // What is still to be moved, and the cycles a grant and an open stage may take.
  function ToGo(s: State): nat {
    3 * Full(s.regs) + |S.Contents(s.skid)| + (if s.arb.valid then 0 else 1) + if s.skid.open then 0 else 1
  }

  predicate Empty(s: State) {
    Full(s.regs) == 0 && S.Contents(s.skid) == []
  }

  // The granted register is emptied when the stage is open; the others stay.
  lemma RegsNext(c: Config, s: State, i: Inputs)
    requires Fits(c, s) && Quiet(c, i)
    ensures Step(c, s, i).regs == if Selected(c, s).Some? then s.regs[s.arb.port := None] else s.regs
  {
    hide S.Clock, A.Next, Requests, Acknowledges;
  }

  // A grant stays until it is used; without one, a full register gets one.
  lemma GrantNext(c: Config, s: State, i: Inputs, m: nat)
    requires Fits(c, s) && Quiet(c, i) && Turn(c, s, m)
    ensures var t := Step(c, s, i);
      && (s.arb.valid && Selected(c, s).None? ==> t.arb.valid)
      && (!s.arb.valid && Full(s.regs) > 0 ==> t.arb.valid)
  {
    var request, acknowledge := Requests(c, s, i), Acknowledges(c, s);
    SomeFull(s.regs);
    if !s.arb.valid && Full(s.regs) > 0 {
      var p :| 0 <= p < |s.regs| && s.regs[p].Some?;
      assert request[p];
    }
    hide S.Clock, A.Pick;
  }

  lemma LessToGo(c: Config, s: State, i: Inputs, m: nat)
    requires Fits(c, s) && Quiet(c, i) && Turn(c, s, m)
    ensures var t := Step(c, s, i);
      (!Empty(s) ==> ToGo(t) < ToGo(s)) && (Empty(s) ==> Empty(t))
  {
    RegsNext(c, s, i);
    GrantNext(c, s, i, m);
    S.SkidMoves(s.skid, Selected(c, s), true);
    if Selected(c, s).Some? {
      FullUpdate(s.regs, s.arb.port);
    }
    hide S.Clock, A.Next, Requests, Acknowledges, Full, S.Contents;
  }

  function Later(c: Config, s: State, log: Log, ins: seq<Inputs>): (r: (State, Log))
    requires Fits(c, s) && AllFit(c, ins) && |log.accepted| == c.ports
    ensures Fits(c, r.0) && |r.1.accepted| == c.ports
    decreases |ins|
  {
    if ins == [] then (s, log) else Later(c, Step(c, s, ins[0]), Note(c, s, log, ins[0]), ins[1..])
  }

  // When the reader is ready for as many cycles as there are steps to go and nothing new comes, every
  // accepted descriptor has been sent, under either kind of arbitration.
  lemma {:induction false} EverythingGoesOut(c: Config, s: State, log: Log, ins: seq<Inputs>, m: nat)
    requires Fits(c, s) && AllFit(c, ins) && (forall i :: i in ins ==> Quiet(c, i)) && Turn(c, s, m)
    requires Accounted(c, s, log) && (|ins| >= ToGo(s) || Empty(s))
    ensures var (t, l) := Later(c, s, log, ins);
      && Empty(t) && l.accepted == log.accepted
      && forall p :: 0 <= p < c.ports ==> log.accepted[p] == OfPort(c, l.sent, p)
    decreases |ins|
  {
    hide Quiet, Step, Note, ToGo, Fits, Turn, InputsFit, OfPort;
    if ins == [] {
      NothingToGo(c, s, log);
    } else {
      var t, l := Step(c, s, ins[0]), Note(c, s, log, ins[0]);
      LessToGo(c, s, ins[0], m);
      StepTurns(c, s, ins[0], m);
      StepAccounted(c, s, log, ins[0]);
      NothingAccepted(c, s, log, ins[0]);
      EverythingGoesOut(c, t, l, ins[1..], if t.arb.valid then t.arb.port else m);
    }
  }

  lemma NothingAccepted(c: Config, s: State, log: Log, i: Inputs)
    requires Fits(c, s) && Quiet(c, i) && |log.accepted| == c.ports
    ensures Note(c, s, log, i).accepted == log.accepted
  {
    var l := Note(c, s, log, i);
    forall p: nat | p < c.ports ensures l.accepted[p] == log.accepted[p] {
      assert i.descs[p].None? && log.accepted[p] + [] == log.accepted[p];
    }
  }

  lemma NothingToGo(c: Config, s: State, log: Log)
    requires Fits(c, s) && Accounted(c, s, log) && (Empty(s) || ToGo(s) == 0)
    ensures Empty(s) && forall p :: 0 <= p < c.ports ==> log.accepted[p] == OfPort(c, log.sent, p)
  {
    SomeFull(s.regs);
    assert log.sent + [] == log.sent;
    forall p: nat | p < c.ports ensures log.accepted[p] == OfPort(c, log.sent, p) {
      assert s.regs[p].None?;
    }
  }

  /* The registers, updated in place. */

  class Mux {
    const cfg: Config
    const regs: array<Option<Desc>>
    const arb: A.Unit
    var out: Option<Desc>
    var temp: Option<Desc>
    var open: bool

    function Now(): State
      reads this, regs, arb
    {
      State(regs[..], arb.Now(), S.Skid(out, temp, open))
    }

    ghost predicate Valid()
      reads this, regs, arb
    {
      Fits(cfg, Now()) && arb.cfg == cfg.Arb()
    }

    constructor (c: Config)
      requires c.Valid()
      ensures cfg == c && Valid() && Now() == Initial(c) && fresh(regs) && fresh(arb)
    {
      cfg := c;
      regs := new Option<Desc>[c.ports](_ => None);
      arb := new A.Unit(c.Arb());
      out, temp, open := None, None, false;
      new;
      assert regs[..] == seq<Option<Desc>>(c.ports, _ => None);
    }

    // The input registers that are free, or emptied at this edge, take what is offered.
    method Load(descs: seq<Option<Desc>>, moving: bool, port: nat)
      requires |descs| == regs.Length
      modifies regs
      ensures regs[..] == seq(regs.Length, p requires 0 <= p < regs.Length =>
        if old(regs[..])[p].None? || (moving && p == port) then descs[p] else old(regs[..])[p])
    {
      ghost var was := regs[..];
      for p := 0 to regs.Length
        invariant forall k :: 0 <= k < p ==>
          regs[k] == if was[k].None? || (moving && k == port) then descs[k] else was[k]
        invariant forall k :: p <= k < regs.Length ==> regs[k] == was[k]
      {
        if regs[p].None? || (moving && p == port) {
          regs[p] := descs[p];
        }
      }
    }

    // The output stage.
    method Pass(input: Option<Desc>, ready: bool)
      modifies this`out, this`temp, this`open
      ensures S.Skid(out, temp, open) == S.Clock(old(S.Skid(out, temp, open)), input, ready)
    {
      var early := ready || (temp.None? && out.None?);
      if open {
        if ready || out.None? {
          out := input;
        } else {
          temp := input;
        }
      } else if ready {
        out, temp := temp, None;
      }
      open := early;
    }

    // One clock edge.
    method Clock(i: Inputs)
      requires Valid() && InputsFit(cfg, i)
      modifies this, regs, arb
      ensures Valid() && Now() == Step(cfg, old(Now()), i)
    {
      hide S.Clock, A.Next, Requests, Acknowledges, Selected;
      var s := Now();
      var selected := Selected(cfg, s);
      arb.Clock(Requests(cfg, s, i), Acknowledges(cfg, s));
      Load(i.descs, s.skid.open && s.arb.valid, s.arb.port);
      Pass(selected, i.ready);
      assert Now().regs == Step(cfg, s, i).regs;
    }
  }
}
