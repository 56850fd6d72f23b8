/** The read engine's registers and memories, updated in place. */
module DmaReadEngine {
  import opened TlpSizing
  import opened TlpStream
  import opened Ring
  import E = ReadEngine
  import C = CompletionPath

  lemma WaitEffect(b: E.State, s: E.State, i: E.Inputs)
    requires E.Alike(b, s) && i.Valid(b.cfg) && !b.req.busy
    ensures var op, q := b.req.op, b.req.(txValid := b.req.txValid && !i.txReady, descReady := false);
      E.Issue(b, s, i) ==
      if b.req.descReady && i.desc.Some? then
        var d, h := i.desc.value, s.history[op];
        s.(req := q.(busy := true, addr := d.addr, ramAddr := d.ramAddr,
                     count := if d.len == 0 then 1 else d.len, zeroLen := d.len == 0),
           ops := s.ops[op := E.AcceptedSlot(b.ops[op], s.ops[op], d.tag)],
           history := s.history[op := h.(accepted := h.accepted + [d], requests := [], codes := [])])
      else s.(req := q.(descReady := i.enable && b.req.opValid))
  {
    hide E.Stored, E.Size, TlpStream.RequestFor, E.RamAfter, Addr.Valid, E.AcceptedSlot, E.IssuedSlot;
  }

  // A request has gone out: the position moves on, its table entry is under way, its credits
  // and the operation's read are counted.
  ghost function Sent(b: E.State, s: E.State, i: E.Inputs, z: TlpSize, tlp: ReadTlp): E.State
    requires E.Sized(b) && |s.ops| == |s.history| == b.cfg.ops && s.cfg == b.cfg
  {
    var op, h, after := b.req.op, s.history[b.req.op], E.RamAfter(b, z);
    s.(req := s.req.(addr := z.next, ramAddr := after, count := (b.req.count - z.tlpCount) % LEN_SPACE,
                     txValid := true, tagValid := false, busy := !z.last, opValid := b.req.opValid && !z.last,
                     descReady := z.last && i.enable && !b.freeOps.Empty()),
       start := E.Start(true, b.req.tag, E.TagEntry(after, op, z.cplh, z.cpld)),
       credits := s.credits.(cplh := (s.credits.cplh + z.cplh) % s.cfg.cplhSpan,
                             cpld := (s.credits.cpld + z.cpld) % s.cfg.cpldSpan),
       ops := s.ops[op := E.IssuedSlot(b.ops[op], s.ops[op], z.last, b.cfg.CountSpan())],
       history := s.history[op := h.(requests := h.requests + [tlp])])
  }

  lemma OfferEffect(b: E.State, s: E.State, i: E.Inputs)
    requires E.Alike(b, s) && i.Valid(b.cfg) && b.req.busy
    ensures var q, z := b.req.(txValid := b.req.txValid && !i.txReady, descReady := false), E.Size(b, i);
      var tlp := RequestFor(b.req.addr, b.req.ramAddr, b.req.zeroLen, z);
      var s1 := s.(req := if E.CanSend(b, i) then q.(tx := tlp, txTag := b.req.tag) else q);
      E.Issue(b, s, i) == if E.Fires(b, i) then Sent(b, s1, i, z, tlp) else s1
  {
    hide E.Stored, E.Size, TlpStream.RequestFor, E.RamAfter, Addr.Valid, E.AcceptedSlot, E.IssuedSlot;
  }

  class Engine {
    const cfg: E.Config
    const table: array<E.TagSlot>
    const ops: array<E.OpSlot>
    var req: E.Req
    var start: E.Start
    var low: Ring<nat>
    var high: Ring<nat>
    var cpl: E.Cpl
    var stWrite: E.StatusWrite
    var statuses: Ring<E.Status>
    var stFull: bool
    var stRead: E.StatusRead
    var freeOps: Ring<nat>
    var credits: E.Credits
    var history: seq<E.History>

    // What the registers and memories hold.
    function Sample(): (s: E.State)
      reads this, table, ops
    {
      E.State(cfg, req, start, table[..], low, high, cpl, stWrite, statuses, stFull, stRead, ops[..], freeOps,
          credits, history)
    }

    ghost predicate Valid()
      reads this, table, ops
    {
      E.Shaped(Sample())
    }

    constructor (config: E.Config)
      requires config.Valid()
      ensures Sample() == E.Reset(config) && fresh(table) && fresh(ops)
    {
      var s := E.Reset(config);
      cfg := config;
      req, start, low, high, cpl := s.req, s.start, s.low, s.high, s.cpl;
      stWrite, statuses, stFull, stRead := s.stWrite, s.statuses, s.stFull, s.stRead;
      freeOps, credits, history := s.freeOps, s.credits, s.history;
      table := new E.TagSlot[config.tags](_ => E.TagSlot(E.NO_ENTRY, false, false));
      ops := new E.OpSlot[config.ops](_ => E.OpSlot(0, false, false, false, 0, 0, false, false, 0));
      new;
      assert table[..] == s.table;
      assert ops[..] == s.ops;
    }

    method PopStatus(b: E.State, i: E.Inputs)
      requires E.Alike(b, Sample())
      modifies this`stRead, this`freeOps, this`history, ops
      ensures Sample() == E.PopStatus(b, old(Sample()), i)
    {
      hide E.PoppedHistory, E.Stored;
      if b.stRead.valid && i.writesDone {
        var st := b.stRead.status;
        var was := b.ops[st.op];
        stRead := stRead.(valid := false);
        if st.error != E.DMA_NONE {
          ops[st.op] := ops[st.op].(errorCode := st.error, errorB := !was.errorA);
        }
        if st.finish {
          ops[st.op] := ops[st.op].(countFinish := (was.countFinish + 1) % cfg.CountSpan());
          history := history[st.op := E.PoppedHistory(was, history[st.op], st.error)];
          if was.commit && was.countStart == was.countFinish {
            freeOps := freeOps.Push(st.op);
          }
        }
      }
    }

    method LoadStatus(b: E.State)
      requires E.Alike(b, Sample()) && statuses == b.statuses
      modifies this`stRead, this`statuses
      ensures Sample() == E.LoadStatus(b, old(Sample()))
    {
      if !stRead.valid && !b.statuses.Empty() {
        stRead := E.StatusRead(true, b.statuses.Head());
        statuses := statuses.Pop();
      }
    }

    method WriteStatus(b: E.State)
      requires E.Alike(b, Sample())
      modifies this`stWrite, this`statuses
      ensures Sample() == E.WriteStatus(b, old(Sample()))
    {
      if b.stWrite.en {
        statuses := statuses.Push(E.Status(b.cpl.op, b.stWrite.finish, b.stWrite.error));
        stWrite := E.QUIET;
      }
    }

    method Release(b: E.State)
      requires E.Alike(b, Sample())
      modifies this`credits, this`low, this`high, table
      ensures Sample() == E.Release(b, old(Sample()))
    {
      if b.cpl.finish {
        var t := b.cpl.tag;
        var e := b.table[t].entry;
        table[t] := table[t].(b := b.table[t].a);
        credits := credits.(cplh := (credits.cplh - e.cplh) % cfg.cplhSpan,
            cpld := (credits.cpld - e.cpld) % cfg.cpldSpan);
        if t < E.LOW_TAGS {
          low := low.Push(t);
        } else {
          high := high.Push(t);
        }
      }
    }

    method StartTag(b: E.State)
      requires E.Alike(b, Sample())
      modifies this`start, table
      ensures Sample() == E.StartTag(b, old(Sample()))
    {
      if b.start.en {
        var t := b.start.tag;
        table[t] := table[t].(entry := b.start.entry, a := !b.table[t].b);
        start := start.(en := false);
      }
    }

    // The completion process sets its registers to their defaults and then to what the state and
    // the beat ask for.
    method Receive(b: E.State, i: E.Inputs)
      requires E.Alike(b, Sample()) && i.Valid(b.cfg)
      modifies this`cpl, this`stWrite
      ensures Sample() == E.Receive(b, old(Sample()), i)
    {
      hide C.FirstCycle, C.NextCycle, E.Stored;
      cpl := b.cpl.(finish := false, ready := i.ramReady && !b.stFull);
      stWrite := E.QUIET;
      var taken := b.cpl.ready && i.beat.Some?;
      match b.cpl.state {
        case Idle =>
          if taken && i.beat.value.sop {
            ReceiveHeader(b, i.beat.value);
          }
        case Write =>
          if taken {
            ReceiveData(b, i.beat.value);
          }
        case WaitEnd =>
          if taken && i.beat.value.eop {
            cpl := cpl.(state := E.Idle);
          } else {
            cpl := cpl.(ready := true);
          }
      }
    }

    method ReceiveHeader(b: E.State, beat: E.Beat)
      requires E.Shaped(b) && b.cfg == cfg && beat.header.span.Valid()
      modifies this`cpl, this`stWrite
      ensures E.Received(cpl, stWrite) == E.ReceiveHeader(b.cfg, b.table, old(cpl), beat)
    {
      hide C.FirstCycle, E.Stored;
      var h := beat.header;
      var t := h.tag % cfg.tags;
      var slot := b.table[t];
      var c := C.FirstCycle(cfg.geo, slot.entry.ramEnd, h.span);
      cpl := cpl.(tag := t, op := slot.entry.op, cycle := c);
      stWrite := E.QUIET;
      if E.Unexpected(h, slot) || E.Malformed(h, beat.error) {
        SkipRest(beat);
      } else if E.Terminates(h, beat.error) {
        cpl := cpl.(finish := true);
        stWrite := E.StatusWrite(true, true, E.TerminatingCode(h, beat.error));
        SkipRest(beat);
      } else {
        stWrite := E.StatusWrite(true, false, E.DMA_NONE);
        cpl := cpl.(finish := false, state := if c.last then E.Idle else E.Write);
        if c.last && c.final {
          cpl := cpl.(finish := true);
          stWrite := stWrite.(finish := true);
        }
      }
    }

    // Wait for the end of a completion that is dropped.
    method SkipRest(beat: E.Beat)
      modifies this`cpl
      ensures cpl == if beat.eop then old(cpl) else old(cpl).(state := E.WaitEnd, ready := true)
    {
      if !beat.eop {
        cpl := cpl.(state := E.WaitEnd, ready := true);
      }
    }

    method ReceiveData(b: E.State, beat: E.Beat)
      requires E.Shaped(b) && b.cfg == cfg
      modifies this`cpl, this`stWrite
      ensures E.Received(cpl, stWrite) == E.ReceiveData(b.cfg, b.cpl, old(cpl), beat)
    {
      hide C.NextCycle, E.Stored;
      var c := C.NextCycle(cfg.geo, b.cpl.cycle);
      cpl := cpl.(cycle := c, finish := false);
      stWrite := E.StatusWrite(true, false, E.DMA_NONE);
      if c.last || beat.eop {
        if c.final {
          cpl := cpl.(finish := true);
          stWrite := stWrite.(finish := true);
        }
        cpl := cpl.(state := if beat.eop then E.Idle else E.WaitEnd);
      } else {
        cpl := cpl.(state := E.Write);
      }
    }

    // The request process: take a descriptor when idle, otherwise offer the next request and
    // move on when it goes out.
    method Issue(b: E.State, i: E.Inputs)
      requires E.Alike(b, Sample()) && i.Valid(b.cfg)
      modifies this`req, this`start, this`credits, this`history, ops
      ensures Sample() == E.Issue(b, old(Sample()), i)
    {
      hide E.Stored, E.Issue;
      if b.req.busy {
        Offer(b, i);
      } else {
        Wait(b, i);
      }
    }

    method Wait(b: E.State, i: E.Inputs)
      requires E.Alike(b, Sample()) && i.Valid(b.cfg) && !b.req.busy
      modifies this`req, this`history, ops
      ensures Sample() == E.Issue(b, old(Sample()), i)
    {
      hide E.Stored, E.Size, TlpStream.RequestFor, E.RamAfter, Addr.Valid, E.AcceptedSlot, E.IssuedSlot;
      hide E.Issue, E.Config.Valid;
      WaitEffect(b, Sample(), i);
      req := b.req.(txValid := b.req.txValid && !i.txReady, descReady := false);
      if b.req.descReady && i.desc.Some? {
        Accept(b, i.desc.value);
      } else {
        req := req.(descReady := i.enable && b.req.opValid);
      }
    }

    method Offer(b: E.State, i: E.Inputs)
      requires E.Alike(b, Sample()) && i.Valid(b.cfg) && b.req.busy
      modifies this`req, this`start, this`credits, this`history, ops
      ensures Sample() == E.Issue(b, old(Sample()), i)
    {
      hide E.Stored, E.Size, TlpStream.RequestFor, Addr.Valid, E.Issue, E.Fires, E.CanSend, Sent, Ring.Valid;
      OfferEffect(b, Sample(), i);
      var z := E.Size(b, i);
      var tlp := RequestFor(b.req.addr, b.req.ramAddr, b.req.zeroLen, z);
      req := b.req.(txValid := b.req.txValid && !i.txReady, descReady := false);
      if E.CanSend(b, i) {
        req := req.(tx := tlp, txTag := b.req.tag);
      }
      if E.Fires(b, i) {
        Send(b, i, z, tlp);
      }
    }

    method Accept(b: E.State, d: E.Descriptor)
      requires E.Sized(b) && b.cfg == cfg && ops.Length == |history| == cfg.ops
      modifies this`req, this`history, ops
      ensures req == old(req).(busy := true, addr := d.addr, ramAddr := d.ramAddr,
                               count := if d.len == 0 then 1 else d.len, zeroLen := d.len == 0)
      ensures var op := b.req.op; var h := old(history[op]);
        && ops[..] == old(ops[..])[op := E.AcceptedSlot(b.ops[op], old(ops[..])[op], d.tag)]
        && history == old(history)[op := h.(accepted := h.accepted + [d], requests := [], codes := [])]
    {
      var op := b.req.op;
      req := req.(busy := true, addr := d.addr, ramAddr := d.ramAddr, count := d.len, zeroLen := false);
      if d.len == 0 {
        req := req.(count := 1, zeroLen := true);
      }
      ops[op] := ops[op].(tag := d.tag, initA := !b.ops[op].initB, errorA := b.ops[op].errorB);
      history := history[op := history[op].(accepted := history[op].accepted + [d], requests := [], codes := [])];
    }

    method Send(b: E.State, i: E.Inputs, z: TlpSize, tlp: ReadTlp)
      requires E.Sized(b) && b.cfg == cfg && ops.Length == |history| == cfg.ops
      modifies this`req, this`start, this`credits, this`history, ops
      ensures Sample() == Sent(b, old(Sample()), i, z, tlp)
    {
      hide E.RamAfter, E.IssuedSlot, Addr.Valid, Ring.Valid, Ring.Empty;
      var op, after := b.req.op, E.RamAfter(b, z);
      StartRead(b, z.last);
      history := history[op := history[op].(requests := history[op].requests + [tlp])];
      MoveOn(b, i, z, after);
      start := E.Start(true, b.req.tag, E.TagEntry(after, op, z.cplh, z.cpld));
      CountCredits(z.cplh, z.cpld);
    }

    method CountCredits(cplh: nat, cpld: nat)
      requires cfg.Valid()
      modifies this`credits
      ensures credits == old(credits).(cplh := (old(credits).cplh + cplh) % cfg.cplhSpan,
                                       cpld := (old(credits).cpld + cpld) % cfg.cpldSpan)
    {
      credits := credits.(cplh := (credits.cplh + cplh) % cfg.cplhSpan);
      credits := credits.(cpld := (credits.cpld + cpld) % cfg.cpldSpan);
    }

    method MoveOn(b: E.State, i: E.Inputs, z: TlpSize, after: nat)
      modifies this`req
      ensures req == old(req).(addr := z.next, ramAddr := after, count := (b.req.count - z.tlpCount) % LEN_SPACE,
                               txValid := true, tagValid := false, busy := !z.last,
                               opValid := b.req.opValid && !z.last,
                               descReady := z.last && i.enable && !b.freeOps.Empty())
    {
      req := req.(addr := z.next, ramAddr := after, count := (b.req.count - z.tlpCount) % LEN_SPACE,
          txValid := true, tagValid := false, busy := true, opValid := b.req.opValid, descReady := false);
      if z.last {
        req := req.(busy := false, opValid := false, descReady := i.enable && !b.freeOps.Empty());
      }
    }

    // The first read of an operation sets its start counter, a later one counts.
    method StartRead(b: E.State, last: bool)
      requires E.Sized(b) && b.cfg == cfg && ops.Length == cfg.ops
      modifies ops
      ensures var op := b.req.op;
        ops[..] == old(ops[..])[op := E.IssuedSlot(b.ops[op], old(ops[..])[op], last, cfg.CountSpan())]
    {
      var op, was := b.req.op, b.ops[b.req.op];
      ops[op] := ops[op].(initB := was.initA, commit := last);
      if was.initA != was.initB {
        ops[op] := ops[op].(countStart := was.countFinish);
      } else {
        ops[op] := ops[op].(countStart := (was.countStart + 1) % cfg.CountSpan());
      }
    }

    method FetchOp(b: E.State)
      requires E.Alike(b, Sample())
      modifies this`req, this`freeOps
      ensures Sample() == E.FetchOp(b, old(Sample()))
    {
      if !req.opValid && !b.freeOps.Empty() {
        req := req.(op := freeOps.Head(), opValid := true);
        freeOps := freeOps.Pop();
      }
    }

    method FetchTag(b: E.State, i: E.Inputs)
      requires E.Alike(b, Sample())
      modifies this`req, this`low, this`high
      ensures Sample() == E.FetchTag(b, old(Sample()), i)
    {
      if !req.tagValid {
        if !b.low.Empty() {
          req := req.(tag := low.Head(), tagValid := true);
          low := low.Pop();
        } else if i.extTags && !b.high.Empty() {
          req := req.(tag := high.Head(), tagValid := true);
          high := high.Pop();
        }
      }
    }

    method Compare(b: E.State)
      requires E.Alike(b, Sample())
      modifies this`credits, this`stFull
      ensures Sample() == E.Compare(b, old(Sample()))
    {
      credits := credits.(cplhOk := credits.cplh < cfg.cplhLimit, cpldOk := credits.cpld < cfg.cpldLimit);
      stFull := b.statuses.Used() >= E.STATUS_HIGH;
    }

    // One clock edge: every process reads the registers as they were before it.
    method Clock(i: E.Inputs)
      requires Valid() && i.Valid(cfg)
      modifies this, table, ops
      ensures Valid() && Sample() == E.Clock(old(Sample()), i)
    {
      var b := Sample();
      PopStatus(b, i);
      LoadStatus(b);
      WriteStatus(b);
      Release(b);
      StartTag(b);
      Receive(b, i);
      Issue(b, i);
      FetchOp(b);
      FetchTag(b, i);
      Compare(b);
    }
  }
}
