/** RAM reads sent to several RAMs, and their responses put back into the order of the commands. */
module RamDemux {
  import opened Options
  import opened Ring
  import S = Skid

  const ORDER_SLOTS: nat := 32
  const OUT_SLOTS: nat := 32
  const HALF: nat := 16

  // A command for one of the RAMs; a RAM's response to it is identified with it.
  datatype Cmd = Cmd(port: nat, sel: nat, addr: nat)

  const NO_CMD := Cmd(0, 0, 0)

  // `order` remembers which RAM each response is to come from. `waiting` is the environment:
  // the commands each RAM has taken and not answered.
  datatype State = State(skid: S.Skid<Cmd>, order: Ring<nat>, waiting: seq<seq<Cmd>>,
                         fifo: Ring<Cmd>, halfFull: bool, out: Option<Cmd>)

  // Which RAMs take a command, and which of them offer the response to their oldest one.
  datatype Inputs = Inputs(cmd: Option<Cmd>, takes: seq<bool>, offers: seq<bool>, ready: bool)

  predicate Fits(ports: nat, s: State) {
    && |s.waiting| == ports
    && s.order.Valid() && |s.order.mem| == ORDER_SLOTS
    && s.fifo.Valid() && |s.fifo.mem| == OUT_SLOTS
    && S.Ok(s.skid) && (s.skid.out.None? ==> s.skid.temp.None?)
    && (forall c :: c in S.Contents(s.skid) ==> c.port < ports)
    && (forall k :: 0 <= k < ORDER_SLOTS ==> s.order.mem[k] < ports)
  }

  predicate InputsFit(ports: nat, i: Inputs) {
    |i.takes| == |i.offers| == ports && (i.cmd.Some? ==> i.cmd.value.port < ports)
  }

  function Initial(ports: nat): State {
    State(S.Skid(None, None, false), Filled([], ORDER_SLOTS, 0), seq(ports, _ => []),
          Filled([], OUT_SLOTS, NO_CMD), false, None)
  }

  /* The handshakes. */

  predicate Accepts(s: State, i: Inputs) {
    i.cmd.Some? && s.skid.open && s.order.Used() != ORDER_SLOTS
  }

  // The command offered to its RAM is taken.
  predicate Sends(ports: nat, s: State, i: Inputs)
    requires Fits(ports, s) && InputsFit(ports, i)
  {
    s.skid.out.Some? && (assert s.skid.out.value in S.Contents(s.skid); i.takes[s.skid.out.value.port])
  }

  // The RAM whose turn it is.
  function Turn(ports: nat, s: State): (p: nat)
    requires Fits(ports, s)
    ensures p < ports
  {
    s.order.Head()
  }

  // Its response is taken into the output FIFO.
  predicate Answers(ports: nat, s: State, i: Inputs)
    requires Fits(ports, s) && InputsFit(ports, i)
  {
    && !s.order.Empty() && !s.halfFull
    && i.offers[Turn(ports, s)] && s.waiting[Turn(ports, s)] != []
  }

  // The response taken from a RAM at this edge.
  function Taken(ports: nat, s: State, i: Inputs): (c: seq<Cmd>)
    requires Fits(ports, s) && InputsFit(ports, i)
    ensures |c| <= 1
  {
    if Answers(ports, s, i) then [s.waiting[Turn(ports, s)][0]] else []
  }

  predicate Loads(s: State, i: Inputs) {
    !s.fifo.Empty() && (s.out.None? || i.ready)
  }

  /* The clock edge. */

  function Popped(q: seq<seq<Cmd>>, p: nat): (r: seq<seq<Cmd>>)
    requires p < |q| && q[p] != []
  {
    q[p := q[p][1..]]
  }

  function Pushed(q: seq<seq<Cmd>>, c: Cmd): (r: seq<seq<Cmd>>)
    requires c.port < |q|
  {
    q[c.port := q[c.port] + [c]]
  }

  function OrderNow(ports: nat, s: State, i: Inputs): (r: Ring<nat>)
    requires Fits(ports, s) && InputsFit(ports, i)
    ensures r.Valid() && |r.mem| == ORDER_SLOTS && forall k :: 0 <= k < ORDER_SLOTS ==> r.mem[k] < ports
  {
    Turned(s.order, if Accepts(s, i) then [i.cmd.value.port] else [], Answers(ports, s, i))
  }

  function WaitingNow(ports: nat, s: State, i: Inputs): (r: seq<seq<Cmd>>)
    requires Fits(ports, s) && InputsFit(ports, i)
    ensures |r| == ports
  {
    var waiting := if Answers(ports, s, i) then Popped(s.waiting, Turn(ports, s)) else s.waiting;
    if Sends(ports, s, i) then Pushed(waiting, s.skid.out.value) else waiting
  }

  function FifoNow(ports: nat, s: State, i: Inputs): (r: Ring<Cmd>)
    requires Fits(ports, s) && InputsFit(ports, i)
    ensures r.Valid() && |r.mem| == OUT_SLOTS
  {
    Turned(s.fifo, if s.fifo.Used() != OUT_SLOTS then Taken(ports, s, i) else [], Loads(s, i))
  }

  function Step(ports: nat, s: State, i: Inputs): (t: State)
    requires Fits(ports, s) && InputsFit(ports, i)
    ensures Fits(ports, t)
  {
    hide Ring.Used, Ring.Valid, Answers, Loads, Sends;
    var input := if Accepts(s, i) then i.cmd else None;
    S.SkidKeeps(s.skid, input, Sends(ports, s, i));
    State(S.Clock(s.skid, input, Sends(ports, s, i)),
          OrderNow(ports, s, i), WaitingNow(ports, s, i), FifoNow(ports, s, i),
          s.fifo.Used() >= HALF,
          if Loads(s, i) then Some(s.fifo.Head()) else if i.ready then None else s.out)
  }

  /* The output FIFO. */

  // The half-full flag lags a cycle behind, so one response may come in after it should stop.
  predicate Roomy(s: State) {
    s.fifo.Used() <= HALF + 1 && (!s.halfFull ==> s.fifo.Used() <= HALF)
  }

  lemma NeverDropped(ports: nat, s: State, i: Inputs)
    requires Fits(ports, s) && InputsFit(ports, i) && Roomy(s)
    ensures Roomy(Step(ports, s, i)) && s.fifo.Used() < OUT_SLOTS
  {
  }

  /* The order of the responses. */

  function OfPort(cs: seq<Cmd>, p: nat): seq<Cmd> {
    if cs == [] then [] else (if cs[0].port == p then [cs[0]] else []) + OfPort(cs[1..], p)
  }

  function PortsOf(cs: seq<Cmd>): seq<nat> {
    seq(|cs|, k requires 0 <= k < |cs| => cs[k].port)
  }

  lemma {:induction false} OfPortConcat(a: seq<Cmd>, b: seq<Cmd>, p: nat)
    ensures OfPort(a + b, p) == OfPort(a, p) + OfPort(b, p)
  {
    if a == [] {
      assert a + b == b;
    } else {
      var first := if a[0].port == p then [a[0]] else [];
      assert (a + b)[0] == a[0] && (a + b)[1..] == a[1..] + b;
      OfPortConcat(a[1..], b, p);
      assert first + (OfPort(a[1..], p) + OfPort(b, p)) == (first + OfPort(a[1..], p)) + OfPort(b, p);
    }
  }

  // Commands accepted, and how many of them have been answered; responses handed out.
  datatype Log = Log(asked: seq<Cmd>, answered: nat, delivered: seq<Cmd>)

  function Note(ports: nat, s: State, log: Log, i: Inputs): Log
    requires Fits(ports, s) && InputsFit(ports, i)
  {
    Log(log.asked + (if Accepts(s, i) then [i.cmd.value] else []),
        log.answered + (if Answers(ports, s, i) then 1 else 0),
        log.delivered + (if i.ready then Held(s.out) else []))
  }

  // The commands not answered yet.
  function Open(log: Log): seq<Cmd>
    requires log.answered <= |log.asked|
  {
    log.asked[log.answered..]
  }

  // Each RAM has its share of the open commands, in order, except for those still on their way
  // to it; the order FIFO has their ports.
  ghost predicate InOrder(ports: nat, s: State, log: Log)
    requires Fits(ports, s)
  {
    && log.answered <= |log.asked|
    && s.order.Used() <= ORDER_SLOTS && s.order.Contents() == PortsOf(Open(log))
    && forall p :: 0 <= p < ports ==> OfPort(Open(log), p) == s.waiting[p] + OfPort(S.Contents(s.skid), p)
  }

  // The answered commands, in order, are the responses handed out and those still held.
  ghost predicate Delivered(s: State, log: Log)
    requires s.fifo.Valid() && log.answered <= |log.asked|
  {
    log.asked[..log.answered] == log.delivered + Held(s.out) + s.fifo.Contents()
  }

  // The response taken is the one to the oldest open command.
  lemma OldestIsAnswered(ports: nat, s: State, log: Log, i: Inputs)
    requires Fits(ports, s) && InputsFit(ports, i) && InOrder(ports, s, log) && Answers(ports, s, i)
    ensures Open(log) != [] && s.waiting[Turn(ports, s)][0] == Open(log)[0] && Turn(ports, s) == Open(log)[0].port
  {
    s.order.PopContents();
    var open, p := Open(log), Turn(ports, s);
    assert PortsOf(open)[0] == p;
    assert OfPort(open, p)[0] == open[0];
    assert (s.waiting[p] + OfPort(S.Contents(s.skid), p))[0] == s.waiting[p][0];
  }

  // The open commands after the edge.
  lemma OpenNext(ports: nat, s: State, log: Log, i: Inputs)
    requires Fits(ports, s) && InputsFit(ports, i) && log.answered <= |log.asked|
    requires Answers(ports, s, i) ==> Open(log) != []
    ensures var l := Note(ports, s, log, i);
      && l.answered <= |l.asked|
      && Open(l) == (if Answers(ports, s, i) then Open(log)[1..] else Open(log)) + if Accepts(s,
          i) then [i.cmd.value] else []
  {
    hide Answers, Accepts;
  }

  // A RAM's queue, with what is on its way to it, loses an answered command and gains an
  // accepted one.
  lemma ShareNext(ports: nat, s: State, i: Inputs, p: nat)
    requires Fits(ports, s) && InputsFit(ports, i) && p < ports
    ensures var t, c := Step(ports, s, i), S.Contents(s.skid);
      t.waiting[p] + OfPort(S.Contents(t.skid), p)
      == (if Answers(ports, s, i) && Turn(ports, s) == p then s.waiting[p][1..] else s.waiting[p])
         + OfPort(c, p) + OfPort(if Accepts(s, i) then [i.cmd.value] else [], p)
  {
    var input := if Accepts(s, i) then i.cmd else None;
    SkidShare(s.skid, input, Sends(ports, s, i), p);
    TakenIsSent(ports, s, i, p);
    hide Answers, Accepts, Sends, S.Clock, S.Contents, S.Taken, OfPort, Popped, Pushed, Turn;
    var left := if Answers(ports, s, i) && Turn(ports, s) == p then s.waiting[p][1..] else s.waiting[p];
    Regroup(left, OfPort(S.Taken(s.skid, Sends(ports, s, i)), p), OfPort(S.Contents(Step(ports, s, i).skid), p),
            OfPort(S.Contents(s.skid), p), OfPort(Held(input), p));
  }

  lemma Regroup(left: seq<Cmd>, taken: seq<Cmd>, after: seq<Cmd>, before: seq<Cmd>, more: seq<Cmd>)
    requires taken + after == before + more
    ensures (left + taken) + after == left + before + more
  {
    assert (left + taken) + after == left + (taken + after);
  }

  // The output stage neither loses nor reorders what is on its way to a RAM.
  lemma SkidShare(skid: S.Skid<Cmd>, input: Option<Cmd>, ready: bool, p: nat)
    requires S.Ok(skid) && (input.Some? ==> skid.open) && (skid.out.None? ==> skid.temp.None?)
    ensures OfPort(S.Taken(skid, ready), p) + OfPort(S.Contents(S.Clock(skid, input, ready)), p)
         == OfPort(S.Contents(skid), p) + OfPort(Held(input), p)
  {
    hide OfPort;
    S.SkidKeeps(skid, input, ready);
    OfPortConcat(S.Taken(skid, ready), S.Contents(S.Clock(skid, input, ready)), p);
    OfPortConcat(S.Contents(skid), Held(input), p);
  }

  lemma TakenIsSent(ports: nat, s: State, i: Inputs, p: nat)
    requires Fits(ports, s) && InputsFit(ports, i) && p < ports
    ensures Step(ports, s, i).waiting[p]
         == (if Answers(ports, s, i) && Turn(ports, s) == p then s.waiting[p][1..] else s.waiting[p])
            + OfPort(S.Taken(s.skid, Sends(ports, s, i)), p)
  {
    hide Answers, S.Clock, S.Contents, Accepts;
  }

  lemma PortInOrder(ports: nat, s: State, log: Log, i: Inputs, p: nat)
    requires Fits(ports, s) && InputsFit(ports, i) && InOrder(ports, s, log) && p < ports
    ensures var t, l := Step(ports, s, i), Note(ports, s, log, i);
      l.answered <= |l.asked| && OfPort(Open(l), p) == t.waiting[p] + OfPort(S.Contents(t.skid), p)
  {
    var open, more := Open(log), if Accepts(s, i) then [i.cmd.value] else [];
    var rest := if Answers(ports, s, i) then open[1..] else open;
    var left := if Answers(ports, s, i) && Turn(ports, s) == p then s.waiting[p][1..] else s.waiting[p];
    if Answers(ports, s, i) {
      OldestIsAnswered(ports, s, log, i);
      OldestGone(open, s.waiting[p], OfPort(S.Contents(s.skid), p), p);
    }
    assert OfPort(rest, p) == left + OfPort(S.Contents(s.skid), p);
    OpenNext(ports, s, log, i);
    OfPortConcat(rest, more, p);
    ShareNext(ports, s, i, p);
    hide Step, Note, Answers, Accepts, S.Contents, OfPort, Fits;
  }

  lemma OldestGone(open: seq<Cmd>, waiting: seq<Cmd>, coming: seq<Cmd>, p: nat)
    requires open != [] && OfPort(open, p) == waiting + coming && (open[0].port == p ==> waiting != [])
    ensures OfPort(open[1..], p) == (if open[0].port == p then waiting[1..] else waiting) + coming
  {
    if open[0].port == p {
      assert OfPort(open, p)[1..] == OfPort(open[1..], p);
      assert (waiting + coming)[1..] == waiting[1..] + coming;
    }
  }

  lemma OrderNext(ports: nat, s: State, log: Log, i: Inputs)
    requires Fits(ports, s) && InputsFit(ports, i) && InOrder(ports, s, log)
    ensures var t, l := Step(ports, s, i), Note(ports, s, log, i);
      l.answered <= |l.asked| && t.order.Used() <= ORDER_SLOTS && t.order.Contents() == PortsOf(Open(l))
  {
    if Answers(ports, s, i) {
      OldestIsAnswered(ports, s, log, i);
    }
    hide Note, Answers, Ring.Contents, S.Contents, OfPort, Turned, S.Clock, PortsOf, Open, Accepts;
    OpenNext(ports, s, log, i);
    TurnedContents(s.order, if Accepts(s, i) then [i.cmd.value.port] else [], Answers(ports, s, i));
    PortsNext(Open(log), Answers(ports, s, i), if Accepts(s, i) then i.cmd else None);
  }

  lemma PortsNext(open: seq<Cmd>, gone: bool, more: Option<Cmd>)
    requires gone ==> open != []
    ensures PortsOf((if gone then open[1..] else open) + Held(more))
         == (if gone then PortsOf(open)[1..] else PortsOf(open)) + if more.Some? then [more.value.port] else []
  {
  }

  lemma StepInOrder(ports: nat, s: State, log: Log, i: Inputs)
    requires Fits(ports, s) && InputsFit(ports, i) && InOrder(ports, s, log)
    ensures InOrder(ports, Step(ports, s, i), Note(ports, s, log, i))
  {
    hide Step, Note, Ring.Contents, Ring.Used, OfPort, S.Contents;
    OrderNext(ports, s, log, i);
    forall p: nat | p < ports
      ensures OfPort(Open(Note(ports, s, log, i)), p)
           == Step(ports, s, i).waiting[p] + OfPort(S.Contents(Step(ports, s, i).skid), p)
    {
      PortInOrder(ports, s, log, i, p);
    }
  }

  lemma FifoNext(ports: nat, s: State, i: Inputs)
    requires Fits(ports, s) && InputsFit(ports, i) && Roomy(s)
    ensures var t, c := Step(ports, s, i), s.fifo.Contents();
      && (Loads(s, i) ==> c != [] && t.out == Some(c[0]))
      && t.fifo.Contents() == (if Loads(s, i) then c[1..] else c) + Taken(ports, s, i)
  {
    NeverDropped(ports, s, i);
    TurnedContents(s.fifo, Taken(ports, s, i), Loads(s, i));
    hide Answers, Ring.Contents, Turned, S.Clock, Taken;
  }

  // What comes in at the end of the output FIFO leaves at the port.
  lemma OutMoves(out: Option<Cmd>, after: Option<Cmd>, c: seq<Cmd>, loads: bool, ready: bool, more: seq<Cmd>)
    requires loads ==> c != [] && (out.None? || ready)
    requires after == if loads then Some(c[0]) else if ready then None else out
    ensures (if ready then Held(out) else []) + Held(after) + ((if loads then c[1..] else c) + more)
        == Held(out) + c + more
  {
    if loads {
      assert c == [c[0]] + c[1..];
    }
  }

  // The answered commands after the edge.
  lemma AnsweredNext(ports: nat, s: State, log: Log, i: Inputs)
    requires Fits(ports, s) && InputsFit(ports, i) && InOrder(ports, s, log)
    ensures var l := Note(ports, s, log, i);
      log.answered <= |log.asked| && l.answered <= |l.asked|
          && l.asked[..l.answered] == log.asked[..log.answered] + Taken(ports, s, i)
  {
    if Answers(ports, s, i) {
      OldestIsAnswered(ports, s, log, i);
    }
    hide Answers, Accepts, InOrder, Fits;
  }

  lemma StepDelivered(ports: nat, s: State, log: Log, i: Inputs)
    requires Fits(ports, s) && InputsFit(ports, i) && Roomy(s) && InOrder(ports, s, log) && Delivered(s, log)
    ensures log.answered <= |log.asked| && Note(ports, s, log, i).answered <= |Note(ports, s, log, i).asked|
    ensures Delivered(Step(ports, s, i), Note(ports, s, log, i))
  {
    hide Answers, Ring.Contents, S.Clock, Ring.Used, Taken, Accepts, Sends, InOrder, OrderNow, WaitingNow, FifoNow;
    hide Roomy;
    var t := Step(ports, s, i);
    AnsweredNext(ports, s, log, i);
    FifoNext(ports, s, i);
    OutMoves(s.out, t.out, s.fifo.Contents(), Loads(s, i), i.ready, Taken(ports, s, i));
    var handed := if i.ready then Held(s.out) else [];
    Regathered(log.delivered, handed, Held(t.out), t.fifo.Contents(), Held(s.out), s.fifo.Contents(),
               Taken(ports, s, i));
  }

  lemma Regathered(delivered: seq<Cmd>, handed: seq<Cmd>, out: seq<Cmd>, fifo: seq<Cmd>, out0: seq<Cmd>,
      fifo0: seq<Cmd>, more: seq<Cmd>)
    requires handed + out + fifo == out0 + fifo0 + more
    ensures (delivered + out0 + fifo0) + more == (delivered + handed) + out + fifo
  {
    assert (delivered + handed) + out + fifo == delivered + (handed + out + fifo);
  }

  /* Whole runs. */

  predicate AllFit(ports: nat, ins: seq<Inputs>) {
    forall i :: i in ins ==> InputsFit(ports, i)
  }

  function Run(ports: nat, ins: seq<Inputs>): (s: State)
    requires 0 < ports && AllFit(ports, ins)
    ensures Fits(ports, s)
  {
    if ins == [] then Initial(ports) else Step(ports, Run(ports, ins[..|ins| - 1]), ins[|ins| - 1])
  }

  function Noted(ports: nat, ins: seq<Inputs>): Log
    requires 0 < ports && AllFit(ports, ins)
  {
    if ins == [] then Log([], 0, [])
    else Note(ports, Run(ports, ins[..|ins| - 1]), Noted(ports, ins[..|ins| - 1]), ins[|ins| - 1])
  }

  // Over every run, whatever the RAMs and the reader do: responses leave in the order of the
  // commands, none is lost, and the output FIFO never holds more than 17.
  lemma {:induction false} RunInOrder(ports: nat, ins: seq<Inputs>)
    requires 0 < ports && AllFit(ports, ins)
    ensures var s, log := Run(ports, ins), Noted(ports, ins);
      InOrder(ports, s, log) && Delivered(s, log) && Roomy(s)
  {
    if ins != [] {
      var n := |ins| - 1;
      var s, log, i := Run(ports, ins[..n]), Noted(ports, ins[..n]), ins[n];
      RunInOrder(ports, ins[..n]);
      hide Step, Note, InOrder, Delivered, Roomy, Fits, InputsFit;
      StepInOrder(ports, s, log, i);
      StepDelivered(ports, s, log, i);
      NeverDropped(ports, s, i);
    }
  }

  /* Nothing is held up without need. */

  // A command is accepted as long as fewer than 32 are open, once the output stage is.
  lemma AcceptsUpTo32(ports: nat, s: State, log: Log, i: Inputs)
    requires Fits(ports, s) && InOrder(ports, s, log)
    ensures Accepts(s, i) <==> i.cmd.Some? && s.skid.open && |Open(log)| < 32
  {
    assert |s.order.Contents()| == |Open(log)|;
    hide Ring.Contents, S.Contents, OfPort;
  }

  // The response to the oldest open command is taken when its RAM offers it, unless the FIFO held 16
  // at the edge before.
  lemma TakesWhatIsOffered(ports: nat, s: State, log: Log, i: Inputs)
    requires Fits(ports, s) && InputsFit(ports, i) && InOrder(ports, s, log) && Open(log) != []
    requires var p := Open(log)[0].port; p < ports && s.waiting[p] != [] && i.offers[p] && !s.halfFull
    ensures Note(ports, s, log, i).answered == log.answered + 1
    ensures Step(ports, s, i).halfFull <==> |s.fifo.Contents()| >= 16
  {
    assert |s.order.Contents()| == |Open(log)|;
    s.order.PopContents();
    assert PortsOf(Open(log))[0] == Turn(ports, s);
    hide S.Contents, S.Clock, OrderNow, WaitingNow, FifoNow;
  }

  // A ready reader gets a response in every cycle in which the FIFO holds one.
  lemma KeepsUp(ports: nat, s: State, i: Inputs)
    requires Fits(ports, s) && InputsFit(ports, i) && (i.ready || s.out.None?) && s.fifo.Contents() != []
    ensures Step(ports, s, i).out == Some(s.fifo.Contents()[0])
  {
    s.fifo.PopContents();
    hide S.Contents, S.Clock, OrderNow, WaitingNow, FifoNow, Ring.Contents;
  }

  /* With ready partners everything comes back. */

  predicate Willing(ports: nat, i: Inputs) {
    && InputsFit(ports, i) && i.cmd.None? && i.ready
    && forall p :: 0 <= p < ports ==> i.takes[p] && i.offers[p]
  }

  // Steps to go: from the output stage to a RAM, to the FIFO, to the port, to its reader; and the
  // cycle the half-full flag may be behind.
  function ToGo(s: State, log: Log): nat
    requires s.fifo.Valid() && log.answered <= |log.asked|
  {
    2 * (|S.Contents(s.skid)| + 3 * |Open(log)| + 2 * |s.fifo.Contents()| + |Held(s.out)|)
    + if s.halfFull then 1 else 0
  }

  ghost predicate Fine(ports: nat, s: State, log: Log) {
    Fits(ports, s) && InOrder(ports, s, log) && Delivered(s, log) && Roomy(s)
  }

  // The oldest open command is with its RAM once the output stage is empty.
  lemma OldestWaits(ports: nat, s: State, log: Log)
    requires Fits(ports, s) && InOrder(ports, s, log) && S.Contents(s.skid) == [] && Open(log) != []
    ensures !s.order.Empty() && s.waiting[Turn(ports, s)] != []
  {
    var open := Open(log);
    assert |s.order.Contents()| == |open|;
    s.order.PopContents();
    var p := Turn(ports, s);
    assert PortsOf(open)[0] == p;
    assert OfPort(open, p)[0] == open[0];
  }

  // What moves at an edge.
  function Moves(ports: nat, s: State, i: Inputs): nat
    requires Fits(ports, s) && InputsFit(ports, i)
  {
    (if Sends(ports, s, i) then 1 else 0) + |Taken(ports, s, i)| + (if Loads(s, i) then 1 else 0) + |Held(s.out)|
  }

  lemma SomethingMoves(ports: nat, s: State, log: Log, i: Inputs)
    requires Fine(ports, s, log) && Willing(ports, i) && ToGo(s, log) > 0
    ensures Moves(ports, s, i) > 0 || (s.halfFull && s.fifo.Used() == 0)
  {
    if S.Contents(s.skid) == [] && s.fifo.Contents() == [] && s.out.None? && Open(log) != [] {
      OldestWaits(ports, s, log);
    }
  }

  lemma FineNext(ports: nat, s: State, log: Log, i: Inputs)
    requires Fine(ports, s, log) && InputsFit(ports, i)
    ensures Fine(ports, Step(ports, s, i), Note(ports, s, log, i))
  {
    hide Step, Note, InOrder, Delivered, Roomy;
    StepInOrder(ports, s, log, i);
    StepDelivered(ports, s, log, i);
    NeverDropped(ports, s, i);
  }

  lemma OpenCount(ports: nat, s: State, log: Log, i: Inputs)
    requires Fine(ports, s, log) && InputsFit(ports, i) && i.cmd.None?
    ensures var l := Note(ports, s, log, i);
      l.answered <= |l.asked| && l.asked == log.asked && |Open(l)| == |Open(log)| - |Taken(ports, s, i)|
  {
    hide Delivered, Roomy, Answers, OfPort, S.Contents, Ring.Contents;
    assert log.asked + [] == log.asked;
    if Answers(ports, s, i) {
      OldestIsAnswered(ports, s, log, i);
    }
    OpenNext(ports, s, log, i);
  }

  lemma OutCount(ports: nat, s: State, i: Inputs)
    requires Fits(ports, s) && InputsFit(ports, i) && Roomy(s) && i.ready
    ensures var t, k := Step(ports, s, i), if Loads(s, i) then 1 else 0;
      && |t.fifo.Contents()| == |s.fifo.Contents()| - k + |Taken(ports, s, i)| && |Held(t.out)| == k
      && t.halfFull == (s.fifo.Used() >= HALF)
  {
    FifoNext(ports, s, i);
    hide Ring.Contents, S.Clock, OrderNow, WaitingNow, FifoNow, Fits, Roomy, Taken, Loads;
  }

  lemma StageCount(ports: nat, s: State, i: Inputs)
    requires Fits(ports, s) && InputsFit(ports, i) && i.cmd.None?
    ensures |S.Contents(Step(ports, s, i).skid)| == |S.Contents(s.skid)| - if Sends(ports, s, i) then 1 else 0
  {
    S.SkidMoves(s.skid, None, Sends(ports, s, i));
    hide S.Clock, OrderNow, WaitingNow, FifoNow;
  }

  lemma StepMoves(ports: nat, s: State, log: Log, i: Inputs)
    requires Fine(ports, s, log) && Willing(ports, i)
    ensures Fine(ports, Step(ports, s, i), Note(ports, s, log, i))
    ensures var t, l := Step(ports, s, i), Note(ports, s, log, i);
      && l.asked == log.asked && t.halfFull == (s.fifo.Used() >= HALF)
      && 2 * Moves(ports, s, i) + ToGo(t, l) - (if t.halfFull then 1 else 0)
      == ToGo(s, log) - (if s.halfFull then 1 else 0)
  {
    hide InOrder, Delivered, Roomy, Ring.Contents, S.Contents, Ring.Used, Fits, Step, Note, Sends, Taken, Loads, Open;
    FineNext(ports, s, log, i);
    OpenCount(ports, s, log, i);
    OutCount(ports, s, i);
    StageCount(ports, s, i);
  }

  function Later(ports: nat, s: State, log: Log, ins: seq<Inputs>): (r: (State, Log))
    requires Fits(ports, s) && AllFit(ports, ins)
    ensures Fits(ports, r.0)
    decreases |ins|
  {
    if ins == [] then (s, log) else Later(ports, Step(ports, s, ins[0]), Note(ports, s, log, ins[0]), ins[1..])
  }

  // When RAMs and reader are ready for as many cycles as there are steps to go, every accepted
  // command has been answered and its response handed out.
  lemma {:induction false} EverythingComesBack(ports: nat, s: State, log: Log, ins: seq<Inputs>)
    requires Fine(ports, s, log) && AllFit(ports, ins) && (forall i :: i in ins ==> Willing(ports, i))
    requires |ins| >= ToGo(s, log)
    ensures var (t, l) := Later(ports, s, log, ins);
      l.asked == log.asked && l.delivered == log.asked && S.Contents(t.skid) == []
    decreases |ins|
  {
    hide Willing, Step, Note, ToGo, InOrder, Delivered, Roomy, Fits, InputsFit;
    if ins == [] {
      NothingToGo(ports, s, log);
    } else {
      var t, l := Step(ports, s, ins[0]), Note(ports, s, log, ins[0]);
      assert Willing(ports, ins[0]);
      LessToGo(ports, s, log, ins[0]);
      EverythingComesBack(ports, t, l, ins[1..]);
    }
  }

  lemma LessToGo(ports: nat, s: State, log: Log, i: Inputs)
    requires Fine(ports, s, log) && Willing(ports, i)
    ensures var t, l := Step(ports, s, i), Note(ports, s, log, i);
      && Fine(ports, t, l) && l.asked == log.asked
      && (ToGo(s, log) > 0 ==> ToGo(t, l) < ToGo(s, log)) && (ToGo(s, log) == 0 ==> ToGo(t, l) == 0)
  {
    StepMoves(ports, s, log, i);
    if ToGo(s, log) > 0 {
      SomethingMoves(ports, s, log, i);
    }
    hide Step, Note, InOrder, Delivered, Roomy, Sends, Taken, Loads, Fits;
  }

  lemma NothingToGo(ports: nat, s: State, log: Log)
    requires Fine(ports, s, log) && ToGo(s, log) == 0
    ensures log.delivered == log.asked && S.Contents(s.skid) == []
  {
    assert log.asked[..log.answered] == log.asked;
    assert log.delivered + [] + [] == log.delivered;
  }

  // And one cycle later the next command is accepted.
  lemma TakesTheNext(ports: nat, s: State, log: Log, i: Inputs, next: Inputs)
    requires Fine(ports, s, log) && ToGo(s, log) == 0 && Willing(ports, i) && next.cmd.Some?
    ensures Accepts(Step(ports, s, i), next)
  {
    LessToGo(ports, s, log, i);
    S.SkidMoves(s.skid, None, Sends(ports, s, i));
    assert |Step(ports, s, i).order.Contents()| == 0;
    hide S.Clock, OrderNow, WaitingNow, FifoNow, Note, Delivered, Roomy;
  }

  /* The registers and FIFOs, updated in place, beside the RAMs they talk to. */

  class Demux {
    const ports: nat
    var cmdOut: Option<Cmd>
    var cmdTemp: Option<Cmd>
    var open: bool
    var order: Ring<nat>
    var waiting: seq<seq<Cmd>>
    var fifo: Ring<Cmd>
    var halfFull: bool
    var out: Option<Cmd>

    function Now(): State
      reads this
    {
      State(S.Skid(cmdOut, cmdTemp, open), order, waiting, fifo, halfFull, out)
    }

    constructor (ramPorts: nat)
      requires 0 < ramPorts
      ensures ports == ramPorts && Now() == Initial(ramPorts) && Fits(ports, Now())
    {
      ports := ramPorts;
      cmdOut, cmdTemp, open := None, None, false;
      order, fifo := Filled([], ORDER_SLOTS, 0), Filled([], OUT_SLOTS, NO_CMD);
      waiting := seq(ramPorts, _ => []);
      halfFull, out := false, None;
    }

    // The command side: the output stage, and the RAM that takes from it.
    method SendCommand(input: Option<Cmd>, taken: bool)
      requires taken ==> cmdOut.Some? && cmdOut.value.port < |waiting|
      modifies this`cmdOut, this`cmdTemp, this`open, this`waiting
      ensures S.Skid(cmdOut, cmdTemp, open) == S.Clock(old(S.Skid(cmdOut, cmdTemp, open)), input, taken)
      ensures waiting == if taken then Pushed(old(waiting), old(cmdOut).value) else old(waiting)
    {
      if taken {
        waiting := waiting[cmdOut.value.port := waiting[cmdOut.value.port] + [cmdOut.value]];
      }
      var early := taken || (cmdTemp.None? && cmdOut.None?);
      if open {
        if taken || cmdOut.None? {
          cmdOut := input;
        } else {
          cmdTemp := input;
        }
      } else if taken {
        cmdOut, cmdTemp := cmdTemp, None;
      }
      open := early;
    }

    // The response side: the output FIFO and the register behind it.
    method PassResponse(response: seq<Cmd>, ready: bool)
      requires fifo.Valid() && |response| <= 1
      modifies this`fifo, this`halfFull, this`out
      ensures fifo == Turned(old(fifo), if old(fifo).Used() != OUT_SLOTS then response else [],
                             !old(fifo).Empty() && (old(out).None? || ready))
      ensures halfFull == (old(fifo).Used() >= HALF)
      ensures out == if !old(fifo).Empty() && (old(out).None? || ready) then Some(old(fifo).Head())
                     else if ready then None else old(out)
    {
      var used, empty, head := fifo.Used(), fifo.Empty(), fifo.Head();
      halfFull := used >= HALF;
      if used != OUT_SLOTS && response != [] {
        fifo := fifo.Push(response[0]);
      }
      if !empty && (out.None? || ready) {
        fifo := fifo.Pop();
        out := Some(head);
      } else if ready {
        out := None;
      }
    }

    // One clock edge.
    method Clock(i: Inputs)
      requires Fits(ports, Now()) && InputsFit(ports, i)
      modifies this
      ensures Now() == Step(ports, old(Now()), i) && Fits(ports, Now())
    {
      var s := Now();
      var accepts, sends, answers, turn := Accepts(s, i), Sends(ports, s, i), Answers(ports, s, i), Turn(ports, s);
      var response := Taken(ports, s, i);
      assert sends ==> cmdOut.Some? && cmdOut.value in S.Contents(s.skid) && cmdOut.value.port < ports;
      assert answers ==> waiting[turn] != [];
      hide S.Clock, Turned, S.Contents, Ring.Used, Ring.Empty, Ring.Head, Ring.Valid, Accepts;
      hide Sends, Answers, Taken, Turn, Popped, Pushed, Fits;
      waiting := if answers then Popped(waiting, turn) else waiting;
      order := Turned(order, if accepts then [i.cmd.value.port] else [], answers);
      SendCommand(if accepts then i.cmd else None, sends);
      PassResponse(response, i.ready);
    }
  }
}
