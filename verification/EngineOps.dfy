/** Every accepted descriptor raises exactly one status, at the end of its last read. */
module EngineOps {
  import opened Arith
  import opened TlpSizing
  import opened TlpStream
  import opened Ring
  import opened ReadEngine
  import opened EngineTags
  import opened EngineCredits
  import opened EngineStatus
  import opened EngineCounts

  /* One slot of the operation table, with its history. */

  // An operation is live from its acceptance until its status is raised.
  predicate Live(h: History) {
    |h.accepted| == |h.raised| + 1
  }

  // Statuses go to the accepted descriptors in order.
  predicate InOrder(h: History) {
    && |h.raised| <= |h.accepted| <= |h.raised| + 1
    && forall k :: 0 <= k < |h.raised| ==> h.raised[k].tag == h.accepted[k].tag
  }

  // The last error code other than none.
  function LastError(codes: seq<nat>): nat {
    if codes == [] then DMA_NONE
    else if codes[|codes| - 1] != DMA_NONE then codes[|codes| - 1] else LastError(codes[..|codes| - 1])
  }

  // The two read counters are `u` reads apart, counting modulo `span` and one behind.
  predicate Apart(started: nat, finished: nat, u: nat, span: nat) {
    && started < span
    && (started + 1 == finished + u || started + 1 + span == finished + u || started + 1 == finished + u + span)
  }

  predicate Remembers(o: OpSlot, codes: seq<nat>) {
    LastError(codes) == (if o.errorA != o.errorB then o.errorCode else DMA_NONE)
    && (o.errorA != o.errorB ==> o.errorCode != DMA_NONE)
  }

  // `u` reads of the operation are unfinished; `held` says that its requests are still being
  // issued.
  predicate Running(o: OpSlot, h: History, u: nat, held: bool, span: nat) {
    && h.requests != [] && |h.requests| == |h.codes| + u
    && Apart(o.countStart, o.countFinish, u, span)
    && (o.commit <==> !held) && (!held ==> u >= 1)
    && Remembers(o, h.codes)
  }

  // Accepted, and nothing issued.
  predicate Waiting(o: OpSlot, h: History, u: nat, held: bool) {
    held && u == 0 && h.requests == [] && h.codes == [] && o.errorA == o.errorB
  }

  // After the status: it reports the last error of all reads issued.
  predicate Closed(h: History) {
    h.raised != [] ==>
      && h.requests != [] && |h.codes| == |h.requests|
      && h.raised[|h.raised| - 1].error == LastError(h.codes)
  }

  predicate SlotOk(o: OpSlot, h: History, u: nat, held: bool, busy: bool, span: nat) {
    && InOrder(h) && o.countFinish < span && (held ==> (Live(h) <==> busy))
    && if !Live(h) then u == 0 && o.initA == o.initB && Closed(h)
       else
         && o.tag == h.accepted[|h.raised|].tag
         && if o.initA != o.initB then Waiting(o, h, u, held) else Running(o, h, u, held, span)
  }

  lemma ErrorsAppend(codes: seq<nat>, error: nat)
    ensures LastError(codes + [error]) == if error != DMA_NONE then error else LastError(codes)
  {
    assert (codes + [error])[..|codes|] == codes;
  }

  // A finished operation reports an error exactly when one of its reads did.
  lemma {:induction false} LastErrorMeans(codes: seq<nat>)
    ensures LastError(codes) != DMA_NONE <==> exists k :: 0 <= k < |codes| && codes[k] != DMA_NONE
  {
    if codes != [] && codes[|codes| - 1] == DMA_NONE {
      LastErrorMeans(codes[..|codes| - 1]);
    }
  }

  lemma Increment(x: nat, span: nat)
    requires x < span
    ensures (x + 1) % span == if x + 1 == span then 0 else x + 1
  {
    if x + 1 < span {
      DivSmall(x + 1, span);
    } else {
      DivMod(x + 1, span, 1, 0);
    }
  }

  // A finished read: the status is raised exactly if it is the operation's last.
  lemma PopSlot(o: OpSlot, h: History, u: nat, held: bool, busy: bool, span: nat, st: Status)
    requires SlotOk(o, h, u, held, busy, span) && 1 <= u <= span && st.finish
    ensures Live(h)
    ensures SlotOk(PoppedSlot(o, o, st, span), PoppedHistory(o, h, st.error), u - 1, held, busy, span)
    ensures Completes(o) <==> !held && u == 1
    ensures Live(PoppedHistory(o, h, st.error)) <==> !Completes(o)
  {
    hide LastError;
    Increment(o.countFinish, span);
    ErrorsAppend(h.codes, st.error);
  }

  lemma AcceptSlot(o: OpSlot, h: History, u: nat, span: nat, d: Descriptor)
    requires SlotOk(o, h, u, true, false, span)
    ensures var now := h.(accepted := h.accepted + [d], requests := [], codes := []);
      SlotOk(AcceptedSlot(o, o, d.tag), now, u, true, true, span)
  {
  }

  // The slot fields the issuing process reads before the edge and relies on after it.
  predicate Steady(was: OpSlot, o: OpSlot) {
    && o.initA == was.initA && o.initB == was.initB && o.countStart == was.countStart
    && (was.initA != was.initB ==> o == was)
  }

  ghost predicate Undisturbed(b: State, s: State, op: nat)
    requires Alike(b, s) && op < b.cfg.ops
  {
    Steady(b.ops[op], s.ops[op]) && (!b.req.busy ==> s.ops[op] == b.ops[op])
  }

  lemma IssueSlot(was: OpSlot, o: OpSlot, h: History, u: nat, span: nat, last: bool, tlp: ReadTlp)
    requires SlotOk(o, h, u, true, true, span) && Steady(was, o) && u <= span
    ensures SlotOk(IssuedSlot(was, o, last, span), h.(requests := h.requests + [tlp]), u + 1, !last, !last, span)
  {
    if was.initA == was.initB {
      Increment(was.countStart, span);
    }
  }

  /* The whole table. */

  predicate Held(s: State, op: nat) {
    s.req.opValid && s.req.op == op
  }

  ghost predicate OpOk(s: State, op: nat)
    requires Sized(s) && op < s.cfg.ops
  {
    SlotOk(s.ops[op], s.history[op], Unfinished(s, op), Held(s, op), s.req.busy, s.cfg.CountSpan())
  }

  // An operation tag is free, held for the next operation, or in use.
  ghost predicate OpPlace(s: State, op: nat)
    requires Sized(s) && op < s.cfg.ops
  {
    Occurs(s.freeOps.Contents(), op) + Bit(Live(s.history[op]) || Held(s, op)) == 1
  }

  ghost predicate OpsOk(s: State) {
    && Shaped(s)
    && (s.req.busy ==> s.req.opValid)
    && (forall op :: op in s.freeOps.Contents() ==> op < s.cfg.ops)
    && (forall op :: 0 <= op < s.cfg.ops ==> OpOk(s, op) && OpPlace(s, op))
  }

  lemma FreeOpsRoom(s: State, op: nat)
    requires OpsOk(s) && op < s.cfg.ops && Live(s.history[op])
    ensures s.freeOps.Used() < s.cfg.ops
  {
    var c := s.freeOps.Contents();
    hide SlotOk, Stored;
    forall x | x in c ensures 0 <= x < s.cfg.ops && x != op && Occurs(c, x) == 1 {
      OccursIn(c, x);
      assert OpPlace(s, x) && OpPlace(s, op);
    }
    Pigeonhole(c, 0, s.cfg.ops, op);
  }

  // What popping a status changes in the operation table.
  lemma PopEffect(b: State, i: Inputs)
    requires Shaped(b) && Formed(b)
    ensures var r, st := Reporting(b, i), b.stRead.status;
      && r.req == b.req && r.cfg == b.cfg
      && (Finishes(b, i) ==>
            && r.ops == b.ops[st.op := PoppedSlot(b.ops[st.op], b.ops[st.op], st, b.cfg.CountSpan())]
            && r.history == b.history[st.op := PoppedHistory(b.ops[st.op], b.history[st.op], st.error)])
      && (!Finishes(b, i) ==> r.ops == b.ops && r.history == b.history)
      && r.freeOps == if Raises(b, i) then b.freeOps.Push(st.op) else b.freeOps
  {
    hide Stored, LoadStatus, PoppedHistory;
  }

  // The operation of a finished read, before and after.
  lemma PoppedOp(b: State, i: Inputs)
    requires OpsOk(b) && Formed(b) && Finishes(b, i) && Unfinished(b, b.stRead.status.op) <= b.cfg.CountSpan()
    ensures var r, op := Reporting(b, i), b.stRead.status.op;
      && OpOk(r, op) && Live(b.history[op]) && Unfinished(b, op) >= 1
      && (Raises(b, i) <==> !Held(b, op) && Unfinished(b, op) == 1)
      && (Live(r.history[op]) <==> !Raises(b, i))
  {
    var op, st := b.stRead.status.op, b.stRead.status;
    assert OpOk(b, op);
    hide Shaped, SlotOk, Reporting, Unfinished, PoppedSlot, PoppedHistory, Formed;
    PopEffect(b, i);
    ReportingUnfinished(b, i, op);
    PopSlot(b.ops[op], b.history[op], Unfinished(b, op), Held(b, op), b.req.busy, b.cfg.CountSpan(), st);
  }

  lemma PoppedPlaces(b: State, i: Inputs)
    requires OpsOk(b) && Formed(b) && (Finishes(b, i) ==> Unfinished(b, b.stRead.status.op) <= b.cfg.CountSpan())
    ensures var r := Reporting(b, i);
      && (forall x :: x in r.freeOps.Contents() ==> x < b.cfg.ops)
      && (forall x :: 0 <= x < b.cfg.ops ==> OpPlace(r, x))
  {
    var r, op, c := Reporting(b, i), b.stRead.status.op, b.freeOps.Contents();
    PopEffect(b, i);
    hide Shaped, SlotOk, Reporting, Unfinished, PoppedSlot, PoppedHistory, Formed, Ring.Contents;
    if Finishes(b, i) {
      PoppedOp(b, i);
      if Raises(b, i) {
        FreeOpsRoom(b, op);
        b.freeOps.PushContents(op);
      }
    }
    forall x: nat | x < b.cfg.ops ensures OpPlace(r, x) {
      assert OpPlace(b, x);
      OccursAppend(c, op, x);
    }
  }

  lemma ReportingOps(b: State, i: Inputs)
    requires OpsOk(b) && TagPlaces(b) && StatusesOk(b)
    ensures OpsOk(Reporting(b, i))
  {
    var r, op := Reporting(b, i), b.stRead.status.op;
    if Finishes(b, i) {
      UnfinishedBound(b, op);
      PoppedOp(b, i);
    }
    PoppedPlaces(b, i);
    PopEffect(b, i);
    hide Shaped, SlotOk, Reporting, Unfinished, PoppedSlot, PoppedHistory, OpPlace;
    forall x: nat | x < b.cfg.ops ensures OpOk(r, x) {
      assert OpOk(b, x);
      ReportingUnfinished(b, i, x);
    }
  }

  lemma CompletingOps(b: State, s: State, i: Inputs)
    requires Alike(b, s) && i.Valid(b.cfg) && TagPlaces(s) && CplTag(b) && SaneWrite(b) && Room(b) && OpsOk(s)
    requires s.statuses.Used() <= b.statuses.Used()
    requires s.low == b.low && s.high == b.high && s.req == b.req && s.start == b.start && s.table == b.table
    ensures OpsOk(Completing(b, s, i))
  {
    var r := Completing(b, s, i);
    hide Shaped, SlotOk, Completing, Unfinished, TagPlaces, CplTag, SaneWrite, Room, Ring.Used, Ring.Contents, Occurs;
    forall x: nat | x < b.cfg.ops ensures OpOk(r, x) && OpPlace(r, x) {
      assert OpOk(s, x) && OpPlace(s, x);
      CompletingUnfinished(b, s, i, x);
    }
  }

  /* Issuing. */

  // A descriptor is accepted only with an operation tag held and no descriptor in hand.
  ghost predicate Offered(s: State) {
    s.req.descReady ==> s.req.opValid && !s.req.busy
  }

  // Requests of the descriptor in hand all carry its operation tag.
  lemma IssueEffect(b: State, s: State, i: Inputs)
    requires Alike(b, s) && i.Valid(b.cfg) && s.req == b.req
    ensures var r, op, z := Issue(b, s, i), b.req.op, Size(b, i);
      && r.freeOps == s.freeOps && r.req.op == op
      && (Accepts(b, i) ==>
            && r.req.busy && r.req.opValid == b.req.opValid
            && r.ops == s.ops[op := AcceptedSlot(b.ops[op], s.ops[op], i.desc.value.tag)]
            && r.history == s.history[op := s.history[op].(accepted := s.history[op].accepted + [i.desc.value],
                                                          requests := [], codes := [])])
      && (Fires(b, i) ==>
            && r.req.busy == !z.last && r.req.opValid == (b.req.opValid && !z.last)
            && r.ops == s.ops[op := IssuedSlot(b.ops[op], s.ops[op], z.last, b.cfg.CountSpan())]
            && r.history == s.history[op := s.history[op].(requests := s.history[op].requests
                                                  + [RequestFor(b.req.addr, b.req.ramAddr, b.req.zeroLen, z)])])
      && (!Accepts(b, i) && !Fires(b, i) ==>
            r.req.busy == b.req.busy && r.req.opValid == b.req.opValid && r.ops == s.ops && r.history == s.history)
  {
    hide Stored, Size, RequestFor, RamAfter, AcceptedSlot, IssuedSlot;
  }

  // The held operation when a descriptor is accepted or a request issued.
  lemma IssuedOp(b: State, s: State, i: Inputs)
    requires Alike(b, s) && i.Valid(b.cfg) && s.req == b.req && OpsOk(s) && Offered(b) && !s.start.en
    requires Accepts(b, i) || Fires(b, i)
    requires Unfinished(s, b.req.op) <= b.cfg.CountSpan()
    requires b.req.opValid ==> Undisturbed(b, s, b.req.op)
    ensures var r, op := Issue(b, s, i), b.req.op;
      OpOk(r, op) && Held(s, op) && Live(r.history[op]) && (Live(s.history[op]) <==> Fires(b, i))
  {
    var op := b.req.op;
    assert OpOk(s, op);
    IssueUnfinished(b, s, i, op);
    hide Stored, SlotOk, Issue, Unfinished, Size, AcceptedSlot, IssuedSlot, Steady, RequestFor;
    IssueEffect(b, s, i);
    var o, h, u, span := s.ops[op], s.history[op], Unfinished(s, op), b.cfg.CountSpan();
    assert Live(h) <==> b.req.busy by { SlotHeld(o, h, u, b.req.busy, span); }
    if Accepts(b, i) {
      AcceptSlot(o, h, u, span, i.desc.value);
    } else {
      var z := Size(b, i);
      IssueSlot(b.ops[op], o, h, u, span, z.last, RequestFor(b.req.addr, b.req.ramAddr, b.req.zeroLen, z));
    }
  }

  lemma SlotHeld(o: OpSlot, h: History, u: nat, busy: bool, span: nat)
    requires SlotOk(o, h, u, true, busy, span)
    ensures Live(h) <==> busy
  {
  }

  // An operation that is not held is not concerned by the descriptor in hand.
  lemma SlotNotHeld(o: OpSlot, h: History, u: nat, busy: bool, now: bool, span: nat)
    requires SlotOk(o, h, u, false, busy, span)
    ensures SlotOk(o, h, u, false, now, span)
  {
  }

  lemma IssueOps(b: State, s: State, i: Inputs)
    requires Alike(b, s) && i.Valid(b.cfg) && s.req == b.req && OpsOk(s) && Offered(b) && !s.start.en
    requires Unfinished(s, b.req.op) <= b.cfg.CountSpan()
    requires b.req.opValid ==> Undisturbed(b, s, b.req.op)
    ensures OpsOk(Issue(b, s, i))
  {
    var r, op := Issue(b, s, i), b.req.op;
    IssueEffect(b, s, i);
    if Accepts(b, i) || Fires(b, i) {
      IssuedOp(b, s, i);
    }
    hide Shaped, SlotOk, Issue, Unfinished, Size, AcceptedSlot, IssuedSlot, Steady, RequestFor, Ring.Contents;
    forall x: nat | x < b.cfg.ops ensures OpOk(r, x) && OpPlace(r, x) {
      assert OpOk(s, x) && OpPlace(s, x);
      IssueUnfinished(b, s, i, x);
      if x != op {
        SlotNotHeld(s.ops[x], s.history[x], Unfinished(s, x), s.req.busy, r.req.busy, b.cfg.CountSpan());
      }
    }
  }

  // The status popped at the same edge leaves what the held operation's next request reads.
  lemma PoppedUndisturbed(b: State, i: Inputs)
    requires OpsOk(b) && TagPlaces(b) && StatusesOk(b) && b.req.opValid
    ensures Undisturbed(b, Reporting(b, i), b.req.op)
  {
    var op := b.req.op;
    PopEffect(b, i);
    if Finishes(b, i) && b.stRead.status.op == op {
      UnfinishedBound(b, op);
      PoppedOp(b, i);
      assert OpOk(b, op);
      hide Shaped, Reporting, Unfinished;
    }
  }

  lemma SlotFetched(o: OpSlot, h: History, u: nat, span: nat)
    requires SlotOk(o, h, u, false, false, span) && !Live(h)
    ensures SlotOk(o, h, u, true, false, span)
  {
  }

  lemma FetchOpOps(b: State, s: State)
    requires Alike(b, s) && OpsOk(s) && (s.freeOps.Empty() ==> b.freeOps.Empty())
    ensures OpsOk(FetchOp(b, s))
  {
    var r, c := FetchOp(b, s), s.freeOps.Contents();
    if !s.req.opValid && !b.freeOps.Empty() {
      s.freeOps.PopContents();
      assert r.freeOps.Contents() == c[1..] && r.req.op == c[0] && c[0] in c;
      assert forall x :: x in c[1..] ==> x in c;
      hide Shaped, SlotOk, Unfinished, Ring.Contents, FetchOp, Occurs;
      forall x: nat | x < s.cfg.ops ensures OpOk(r, x) && OpPlace(r, x) {
        assert OpOk(s, x) && OpPlace(s, x);
        UnfinishedElsewhere(s, r, x);
        OccursCons(c, x);
        if x == c[0] {
          OccursIn(c, x);
          SlotFetched(s.ops[x], s.history[x], Unfinished(s, x), s.cfg.CountSpan());
        }
      }
    }
  }

  lemma OpsElsewhere(s: State, r: State)
    requires OpsOk(s) && Shaped(r) && r.cfg == s.cfg
    requires r.ops == s.ops && r.history == s.history && r.freeOps == s.freeOps
    requires r.req.busy == s.req.busy && r.req.opValid == s.req.opValid && r.req.op == s.req.op
    requires r.statuses == s.statuses && r.table == s.table && r.start == s.start && r.stRead == s.stRead
    ensures OpsOk(r)
  {
    hide Stored, SlotOk, Unfinished, Ring.Contents, Occurs;
    forall x: nat | x < s.cfg.ops ensures OpOk(r, x) && OpPlace(r, x) {
      assert OpOk(s, x) && OpPlace(s, x);
      UnfinishedElsewhere(s, r, x);
    }
  }

  lemma RequestingOps(b: State, s: State, i: Inputs)
    requires Alike(b, s) && i.Valid(b.cfg) && s.req == b.req && OpsOk(s) && Offered(b) && !s.start.en
    requires Unfinished(s, b.req.op) <= b.cfg.CountSpan()
    requires b.req.opValid ==> Undisturbed(b, s, b.req.op)
    requires s.freeOps.Empty() ==> b.freeOps.Empty()
    ensures OpsOk(Requesting(b, s, i))
  {
    var q := Issue(b, s, i);
    hide Shaped, OpsOk, Issue, FetchOp, FetchTag, Unfinished, Undisturbed;
    IssueOps(b, s, i);
    FetchOpOps(b, q);
    OpsElsewhere(FetchOp(b, q), Requesting(b, s, i));
  }

  lemma ReadyNext(b: State, i: Inputs)
    requires Sized(b) && i.Valid(b.cfg) && (b.req.busy ==> b.req.opValid)
    ensures var q := ReqNext(b, i); q.descReady ==> !q.busy && (q.opValid || !b.freeOps.Empty())
  {
    hide Size, RequestFor, RamAfter;
  }

  lemma FetchOpReq(b: State, s: State)
    requires Alike(b, s)
    ensures FetchOp(b, s).req.opValid == (s.req.opValid || !b.freeOps.Empty())
  {
    hide Shaped;
  }

  lemma RequestingOffered(b: State, s: State, i: Inputs)
    requires Alike(b, s) && i.Valid(b.cfg) && s.req == b.req && (b.req.busy ==> b.req.opValid)
    ensures Offered(Requesting(b, s, i))
  {
    var q := Issue(b, s, i);
    ReadyNext(b, i);
    assert q.req == ReqNext(b, i) by { hide Shaped, ReqNext; }
    FetchOpReq(b, q);
    hide Shaped, Issue, FetchOp, FetchTag, ReqNext;
  }

  // One clock edge.
  lemma ClockOps(b: State, i: Inputs)
    requires OpsOk(b) && Offered(b) && TagPlaces(b) && CplTag(b) && StatusesOk(b) && i.Valid(b.cfg)
    ensures OpsOk(Clock(b, i)) && Offered(Clock(b, i))
  {
    assert b.req.busy ==> b.req.opValid;
    hide Stored, OpsOk, TagPlaces, CplTag, TooSoon, Room, Formed;
    hide Reporting, Completing, Requesting, Undisturbed, Unfinished, Ring.Used;
    var s := Reporting(b, i);
    var t := Completing(b, s, i);
    var u := Requesting(b, t, i);
    ReportingOps(b, i);
    BeforeRequesting(b, i);
    RequestingOps(b, t, i);
    RequestingOffered(b, t, i);
    OpsElsewhere(u, Clock(b, i));
  }

  // What the issuing process finds.
  lemma BeforeRequesting(b: State, i: Inputs)
    requires OpsOk(b) && TagPlaces(b) && CplTag(b) && StatusesOk(b) && i.Valid(b.cfg)
    ensures var t := Completing(b, Reporting(b, i), i);
      && OpsOk(t) && t.req == b.req && !t.start.en
      && Unfinished(t, b.req.op) <= b.cfg.CountSpan()
      && (b.req.opValid ==> Undisturbed(b, t, b.req.op))
      && (t.freeOps.Empty() ==> b.freeOps.Empty())
  {
    hide Shaped, TagPlaces, CplTag, TooSoon, Room, Reporting, Completing, Steady, Unfinished, Ring.Used, Ring.Empty;
    var s := Reporting(b, i);
    var op := b.req.op;
    ReportingOps(b, i);
    ReportingKeeps(b, i);
    TagsElsewhere(b, s);
    CompletingTags(b, s, i);
    CompletingOps(b, s, i);
    UnfinishedBound(b, op);
    ReportingUnfinished(b, i, op);
    CompletingUnfinished(b, s, i, op);
    if b.req.opValid {
      PoppedUndisturbed(b, i);
    }
    PoppedFreeOps(b, i);
  }

  lemma PoppedFreeOps(b: State, i: Inputs)
    requires OpsOk(b) && TagPlaces(b) && StatusesOk(b)
    ensures Reporting(b, i).freeOps.Empty() ==> b.freeOps.Empty()
  {
    var op := b.stRead.status.op;
    PopEffect(b, i);
    if Raises(b, i) {
      UnfinishedBound(b, op);
      PoppedOp(b, i);
      FreeOpsRoom(b, op);
      b.freeOps.PushContents(op);
      hide Stored, Reporting, OpOk, OpPlace;
    }
  }
}


