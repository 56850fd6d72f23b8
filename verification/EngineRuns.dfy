/** Whole runs of the read engine, from reset. */
module EngineRuns {
  import opened Arith
  import opened TlpSizing
  import opened TlpStream
  import opened Ring
  import opened ReadEngine
  import opened EngineTags
  import opened EngineCredits
  import opened EngineStatus
  import opened EngineCounts
  import opened EngineOps
  import opened EngineStream
  import opened EngineData
  import opened EngineFates
  import C = CompletionPath

  // Everything the engine keeps from one clock edge to the next.
  ghost predicate Good(s: State) {
    && TagPlaces(s) && CplTag(s) && StatusesOk(s) && Counted(s) && Gated(s) && OpsOk(s) && Offered(s)
  }

  lemma GoodParts(s: State)
    requires Good(s)
    ensures OpsOk(s) && Offered(s) && TagPlaces(s) && CplTag(s) && StatusesOk(s) && Counted(s) && Gated(s)
  {
  }

  lemma ClockGood(b: State, i: Inputs)
    requires Good(b) && i.Valid(b.cfg) && !TooSoon(b, i)
    ensures Good(Clock(b, i))
  {
    hide Stored, TagPlaces, CplTag, Room, Formed, Counted, Gated, OpsOk, Offered, TooSoon, Clock;
    ClockTags(b, i);
    ClockStatuses(b, i);
    ClockCredits(b, i);
    ClockOps(b, i);
  }

  /* Reset. */

  lemma {:induction false} OccursBetween(lo: nat, n: nat, t: nat)
    requires lo <= n
    ensures Occurs(Between(lo, n), t) == Bit(lo <= t < n)
    decreases n
  {
    if lo < n {
      assert Between(lo, n) == Between(lo, n - 1) + [n - 1];
      OccursBetween(lo, n - 1, t);
      OccursAppend(Between(lo, n - 1), n - 1, t);
    }
  }

  lemma OccursUpto(n: nat, t: nat)
    ensures Occurs(Upto(n), t) == Bit(t < n)
  {
    assert Upto(n) == Between(0, n);
    OccursBetween(0, n, t);
  }

  lemma ResetShaped(cfg: Config)
    requires cfg.Valid()
    ensures Shaped(Reset(cfg))
  {
    var s := Reset(cfg);
    var lowC, highC := Upto(LOW_TAGS), Between(LOW_TAGS, cfg.tags);
    FilledMem(lowC, LOW_TAGS, 0);
    FilledMem(highC, cfg.highRing, 0);
    FilledMem(Upto(cfg.ops), cfg.ops, 0);
    FilledMem([], STATUS_SLOTS, NO_STATUS);
  }

  lemma FilledMem<T>(c: seq<T>, capacity: nat, blank: T)
    requires |c| <= capacity && 0 < capacity
    ensures forall k :: 0 <= k < capacity ==> Filled(c, capacity, blank).mem[k] == if k < |c| then c[k] else blank
  {
  }

  lemma ResetTags(cfg: Config)
    requires cfg.Valid()
    ensures TagPlaces(Reset(cfg)) && CplTag(Reset(cfg))
  {
    var s := Reset(cfg);
    ResetShaped(cfg);
    var c, d := s.low.Contents(), s.high.Contents();
    assert c == Upto(LOW_TAGS) && d == Between(LOW_TAGS, cfg.tags);
    forall t: nat ensures Occurs(c, t) == Bit(t < LOW_TAGS) && Occurs(d, t) == Bit(LOW_TAGS <= t < cfg.tags) {
      OccursUpto(LOW_TAGS, t);
      OccursBetween(LOW_TAGS, cfg.tags, t);
    }
    hide Occurs, Stored, Ring.Contents, Filled;
  }

  lemma ResetCredits(cfg: Config)
    requires cfg.Valid()
    ensures Counted(Reset(cfg)) && Gated(Reset(cfg)) && forall op :: InFlight(ReadsOf(op), Reset(cfg)) == 0
  {
    var s := Reset(cfg);
    TotalNone(HeaderCredits, s.table);
    TotalNone(DataCredits, s.table);
    forall op ensures InFlight(ReadsOf(op), s) == 0 {
      TotalNone(ReadsOf(op), s.table);
    }
  }

  lemma ResetOps(cfg: Config)
    requires cfg.Valid()
    ensures OpsOk(Reset(cfg)) && Offered(Reset(cfg))
  {
    var s := Reset(cfg);
    ResetShaped(cfg);
    ResetCredits(cfg);
    var c := s.freeOps.Contents();
    assert c == Upto(cfg.ops) && s.statuses.Contents() == [];
    forall op: nat | op < cfg.ops ensures OpOk(s, op) && OpPlace(s, op) {
      OccursUpto(cfg.ops, op);
      assert Unfinished(s, op) == 0;
    }
  }

  lemma ResetGood(cfg: Config)
    requires cfg.Valid()
    ensures Good(Reset(cfg))
  {
    ResetShaped(cfg);
    ResetTags(cfg);
    ResetCredits(cfg);
    ResetOps(cfg);
    var s := Reset(cfg);
    assert s.statuses.Contents() == [];
    hide TagPlaces, CplTag, Counted, Gated, OpsOk, Offered, Stored;
  }

  /* Runs. */

  // The inputs of a run under which no completion reuses a tag before its release is recorded.
  ghost predicate Conforming(s: State, ins: seq<Inputs>)
    requires Shaped(s)
    decreases |ins|
  {
    ins == [] || (ins[0].Valid(s.cfg) && !TooSoon(s, ins[0]) && Conforming(Clock(s, ins[0]), ins[1..]))
  }

  ghost function Run(s: State, ins: seq<Inputs>): (r: State)
    requires Shaped(s) && Conforming(s, ins)
    ensures Shaped(r) && r.cfg == s.cfg
    decreases |ins|
  {
    hide Shaped, Clock;
    if ins == [] then s else Run(Clock(s, ins[0]), ins[1..])
  }

  lemma {:induction false} RunKeepsGood(s: State, ins: seq<Inputs>)
    requires Good(s) && Conforming(s, ins)
    ensures Good(Run(s, ins))
    decreases |ins|
  {
    if ins != [] {
      hide Good, Clock, TooSoon, Shaped;
      ClockGood(s, ins[0]);
      RunKeepsGood(Clock(s, ins[0]), ins[1..]);
    }
  }

  lemma {:induction false} RunKeepsStreams(s: State, ins: seq<Inputs>, l: Link)
    requires Good(s) && Conforming(s, ins) && StreamsOk(s, l) && forall i :: i in ins ==> l.For(i)
    ensures StreamsOk(Run(s, ins), l)
    decreases |ins|
  {
    if ins != [] {
      var t := Clock(s, ins[0]);
      assert OpsOk(s) && Offered(s) && TagPlaces(s) && CplTag(s) && StatusesOk(s);
      hide Good, Clock, TooSoon, Shaped, StreamsOk, OpsOk, Offered, TagPlaces, CplTag, Room, Formed;
      ClockGood(s, ins[0]);
      ClockStreams(s, ins[0], l);
      RunKeepsStreams(t, ins[1..], l);
    }
  }

  // In every state a conforming run reaches from reset.
  lemma EveryRunIsGood(cfg: Config, ins: seq<Inputs>)
    requires cfg.Valid() && Shaped(Reset(cfg)) && Conforming(Reset(cfg), ins)
    ensures Good(Run(Reset(cfg), ins))
  {
    ResetGood(cfg);
    hide Good, Reset, Shaped;
    RunKeepsGood(Reset(cfg), ins);
  }

  lemma EveryRunIsOnPlan(cfg: Config, ins: seq<Inputs>, l: Link)
    requires cfg.Valid() && Shaped(Reset(cfg)) && Conforming(Reset(cfg), ins)
    requires l.Valid() && l.geo == cfg.geo && forall i :: i in ins ==> l.For(i)
    ensures StreamsOk(Run(Reset(cfg), ins), l)
  {
    ResetGood(cfg);
    assert StreamsOk(Reset(cfg), l);
    hide Good, Reset, Shaped, StreamsOk;
    RunKeepsStreams(Reset(cfg), ins, l);
  }

  // The inputs of a run in which the completers also keep their word, with the progress they
  // make.
  ghost predicate HonestRun(s: State, ins: seq<Inputs>, log: seq<Progress>)
    requires Shaped(s) && |log| == s.cfg.tags
    decreases |ins|
  {
    ins == [] || (ins[0].Valid(s.cfg) && Honest(s, ins[0], log)
        && HonestRun(Clock(s, ins[0]), ins[1..], Follow(s, ins[0], log)))
  }

  ghost function Progressed(s: State, ins: seq<Inputs>, log: seq<Progress>): (l: seq<Progress>)
    requires Shaped(s) && |log| == s.cfg.tags && HonestRun(s, ins, log)
    ensures |l| == |log|
    decreases |ins|
  {
    hide Shaped, Clock, Follow, Honest;
    if ins == [] then log else Progressed(Clock(s, ins[0]), ins[1..], Follow(s, ins[0], log))
  }

  lemma {:induction false} RunKeepsData(s: State, ins: seq<Inputs>, log: seq<Progress>)
    requires Good(s) && Conforming(s, ins) && DataOk(s, log) && HonestRun(s, ins, log)
    ensures DataOk(Run(s, ins), Progressed(s, ins, log))
    decreases |ins|
  {
    if ins != [] {
      assert TagPlaces(s) && CplTag(s);
      hide Good, Clock, TooSoon, Shaped, DataOk, Follow, Honest, TagPlaces, CplTag;
      ClockGood(s, ins[0]);
      ClockData(s, ins[0], log);
      RunKeepsData(Clock(s, ins[0]), ins[1..], Follow(s, ins[0], log));
    }
  }

  lemma EveryRunPlacesItsData(cfg: Config, ins: seq<Inputs>, log: seq<Progress>)
    requires cfg.Valid() && Shaped(Reset(cfg)) && |log| == cfg.tags
    requires Conforming(Reset(cfg), ins) && HonestRun(Reset(cfg), ins, log)
    ensures DataOk(Run(Reset(cfg), ins), Progressed(Reset(cfg), ins, log))
  {
    ResetGood(cfg);
    ResetData(cfg, log);
    hide Good, Reset, Shaped, DataOk;
    RunKeepsData(Reset(cfg), ins, log);
  }

  // The fates of all requests along such a run.
  ghost function Settling(s: State, ins: seq<Inputs>, log: seq<Progress>, f: Ledger): (r: Ledger)
    requires Shaped(s) && |log| == s.cfg.tags && HonestRun(s, ins, log) && f.For(s)
    ensures r.For(s)
    decreases |ins|
  {
    hide Shaped, Clock, Follow, Honest, Entered;
    if ins == [] then f else Settling(Clock(s, ins[0]), ins[1..], Follow(s, ins[0], log), Entered(s, ins[0], log, f))
  }

  lemma {:induction false} RunKeepsFates(s: State, ins: seq<Inputs>, log: seq<Progress>, f: Ledger)
    requires Good(s) && Conforming(s, ins) && DataOk(s, log) && HonestRun(s, ins, log) && FatesOk(s, log, f)
    ensures FatesOk(Run(s, ins), Progressed(s, ins, log), Settling(s, ins, log, f))
    decreases |ins|
  {
    if ins != [] {
      assert TagPlaces(s) && CplTag(s) && StatusesOk(s) && OpsOk(s) && Offered(s);
      hide Good, Clock, TooSoon, Shaped, DataOk, Follow, Honest, TagPlaces, CplTag, StatusesOk, OpsOk, Offered;
      hide FatesOk, Entered;
      ClockGood(s, ins[0]);
      ClockData(s, ins[0], log);
      ClockFates(s, ins[0], log, f);
      RunKeepsFates(Clock(s, ins[0]), ins[1..], Follow(s, ins[0], log), Entered(s, ins[0], log, f));
    }
  }

  lemma EveryRunSettles(cfg: Config, ins: seq<Inputs>, log: seq<Progress>, f: Ledger)
    requires cfg.Valid() && Shaped(Reset(cfg)) && |log| == cfg.tags && f.For(Reset(cfg))
    requires forall op :: 0 <= op < cfg.ops ==> f.fates[op] == []
    requires Conforming(Reset(cfg), ins) && HonestRun(Reset(cfg), ins, log)
    ensures FatesOk(Run(Reset(cfg), ins), Progressed(Reset(cfg), ins, log), Settling(Reset(cfg), ins, log, f))
  {
    ResetGood(cfg);
    ResetData(cfg, log);
    ResetFates(cfg, log, f);
    hide Good, Reset, Shaped, DataOk, FatesOk;
    RunKeepsFates(Reset(cfg), ins, log, f);
  }

  /* What that means. */

  // When a request ends without an error, byte `k` of what it asked for has been written, in
  // the place its data cycles have in the range, and they have written nothing else. The range
  // is the request's own wherever the engine counts bytes for it.
  lemma FinishedIsFilled(s: State, log: seq<Progress>, k: nat) returns (i: nat, j: nat)
    requires DataOk(s, log) && s.cpl.finish && s.stWrite.error == DMA_NONE && k < ByteCount(log[s.cpl.tag].tlp)
    ensures var p := log[s.cpl.tag];
      && Counts(p.tlp) && i < |p.done| && j < p.done[i].bytes && k == C.Before(p.done, i) + j
      && C.Plus(s.cfg.geo, p.done[i].start, j) == C.Plus(s.cfg.geo, DataStart(s.cfg.geo, p.tlp), k)
      && C.Before(p.done, |p.done|) == ByteCount(p.tlp)
      && (p.tlp.bytes > 0 ==> ByteCount(p.tlp) == p.tlp.bytes && DataStart(s.cfg.geo, p.tlp) == p.tlp.ramAddr)
  {
    var g, p := s.cfg.geo, log[s.cpl.tag];
    assert InPlace(g, p) && p.left == 0;
    hide DataOk, Shaped, ByteCount;
    i, j := WholeIsFilled(g, p.tlp, p.done, k);
    if p.tlp.bytes > 0 {
      OwnRange(g, p.tlp);
    }
  }

  lemma WholeIsFilled(g: C.Geometry, t: ReadTlp, done: seq<C.Cycle>, k: nat) returns (i: nat, j: nat)
    requires g.Valid() && Counts(t) && C.Fills(g, done, DataStart(g, t), ByteCount(t)) && k < ByteCount(t)
    ensures i < |done| && j < done[i].bytes && k == C.Before(done, i) + j
    ensures C.Plus(g, done[i].start, j) == C.Plus(g, DataStart(g, t), k) && C.Before(done, |done|) == ByteCount(t)
  {
    StartInSpace(g, t);
    hide C.Plus, ByteCount, DataStart;
    C.FillsTotal(g, done, DataStart(g, t), ByteCount(t));
    i, j := C.FilledOnce(g, done, DataStart(g, t), ByteCount(t), k);
  }

  // For a descriptor that ends on a full page, the plan's last request reads the page behind it,
  // and its data goes where the data of the request before it, the descriptor's last page, goes.
  lemma ExtraReadLandsOnLastPage(l: Link, d: Descriptor)
    requires l.Valid() && Acceptable(d) && d.len > 0 && EndsOnFullPage(d.addr, d.len, l.maxDw)
    ensures var p := Plan(l, d); var n := |p| - 1;
      && n >= 1 && Counts(p[n]) && Counts(p[n - 1]) && ByteCount(p[n]) == ByteCount(p[n - 1]) == 0x1000
      && p[n].addr.Value() == HostByte(d.addr, d.len)
      && p[n - 1].addr.Value() == HostByte(d.addr, d.len - 0x1000)
      && DataStart(l.geo, p[n]) == DataStart(l.geo, p[n - 1])
  {
    hide Segments, Stream, Exact, ByteCount, EndsOnFullPage, Tiles, DataStart, AllSent, Addr.Valid, HostByte;
    var segs := Segments(d.addr, d.ramAddr, d.len, l.maxDw, l.rcb128);
    var n := |segs| - 1;
    ExtraRequest(d.addr, d.ramAddr, d.len, l.maxDw, l.rcb128);
    LastPageRequest(d.addr, d.ramAddr, d.len, l.maxDw, l.rcb128);
    assert Plan(l, d) == AllSent(segs, false, l.geo);
    SentAt(segs, l.geo, n);
    SentAt(segs, l.geo, n - 1);
    assert segs[n].ramAddr + segs[n].bytes == segs[n - 1].ramAddr + segs[n - 1].bytes;
    hide LastPageBefore;
    SameEnd(l.geo, segs[n], segs[n - 1]);
  }

  lemma SentAt(segs: seq<ReadTlp>, g: C.Geometry, k: nat)
    requires g.Valid() && k < |segs| && Counts(segs[k])
    ensures var p := AllSent(segs, false, g);
      && |p| == |segs| && p[k].addr == segs[k].addr && ByteCount(p[k]) == ByteCount(segs[k])
      && Counts(p[k]) && DataStart(g, p[k]) == DataStart(g, segs[k])
  {
    var t := segs[k];
    assert ByteCount(t.(ramAddr := t.ramAddr % g.ramSpace)) == ByteCount(t);
    hide ByteCount;
    ModPlus(t.ramAddr, t.bytes + g.ramSpace - ByteCount(t), g.ramSpace);
  }

  lemma LastPageRequest(a: Addr, ramAddr: nat, count: nat, maxDw: nat, rcb128: bool)
    requires a.Valid() && 0 < count < LEN_SPACE && IsMaxDwords(maxDw) && EndsOnFullPage(a, count, maxDw)
    ensures var segs := Segments(a, ramAddr, count, maxDw, rcb128); var n := |segs| - 1;
      n >= 1 && ByteCount(segs[n - 1]) == segs[n - 1].bytes == 0x1000 && segs[n].bytes == 0
      && segs[n - 1].addr.Value() == HostByte(a, count - 0x1000)
  {
    hide Segments, Stream, Exact, EndsOnFullPage, ByteCount, Tiles, HostByte;
    var segs := Segments(a, ramAddr, count, maxDw, rcb128);
    EmptyRequest(a, ramAddr, count, maxDw, rcb128);
    SegmentsTile(a, ramAddr, count, maxDw, rcb128);
    AllExact(segs, a, ramAddr, count, maxDw);
    ExactCounts(segs[|segs| - 2]);
    LastPageStarts(segs, a, ramAddr, count);
  }

  lemma LastPageStarts(segs: seq<ReadTlp>, a: Addr, ramAddr: nat, count: nat)
    requires Tiles(segs, a, ramAddr, count) && |segs| >= 2
    requires segs[|segs| - 1].bytes == 0 && segs[|segs| - 2].bytes == 0x1000
    ensures count >= 0x1000 && segs[|segs| - 2].addr.Value() == HostByte(a, count - 0x1000)
  {
    OffsetNext(segs, |segs| - 1);
    OffsetNext(segs, |segs| - 2);
  }

  lemma SameEnd(g: C.Geometry, t: ReadTlp, u: ReadTlp)
    requires g.Valid() && Counts(t) && Counts(u) && ByteCount(t) == ByteCount(u)
    requires t.ramAddr + t.bytes == u.ramAddr + u.bytes
    ensures DataStart(g, t) == DataStart(g, u)
  {
    hide ByteCount;
  }

  // A request goes out under a tag that is nowhere in flight.
  lemma IssuedTagIsFree(b: State, i: Inputs)
    requires Good(b) && Fires(b, i)
    ensures var t := b.req.tag;
      !b.table[t].Active() && !(b.start.en && b.start.tag == t) && t !in b.low.Contents() && t !in b.high.Contents()
  {
    assert Places(b, b.req.tag) == 1;
    OccursIn(b.low.Contents(), b.req.tag);
    OccursIn(b.high.Contents(), b.req.tag);
  }

  // The statuses raised are those of the accepted descriptors, in order; one is missing
  // exactly while the slot has requests to issue or reads to finish.
  lemma StatusPerDescriptor(s: State, op: nat)
    requires Good(s) && op < s.cfg.ops
    ensures var h := s.history[op];
      && (forall k :: 0 <= k < |h.raised| ==> k < |h.accepted| && h.raised[k].tag == h.accepted[k].tag)
      && |h.accepted| == |h.raised| + Bit((s.req.busy && s.req.op == op) || Unfinished(s, op) > 0)
  {
    assert OpOk(s, op) && OpPlace(s, op);
    hide Unfinished, Shaped, Occurs, Ring.Contents, Closed, Apart, Remembers;
  }

  lemma PoppedRaises(b: State, i: Inputs, op: nat)
    requires Good(b) && op < b.cfg.ops
    ensures |Reporting(b, i).history[op].raised| == |b.history[op].raised|
         + Bit(Finishes(b, i) && b.stRead.status.op == op && !Held(b, op) && Unfinished(b, op) == 1)
  {
    if Finishes(b, i) {
      UnfinishedBound(b, b.stRead.status.op);
      PoppedOp(b, i);
    }
    hide Stored, Reporting, TagPlaces, CplTag, Room, Formed, OpsOk, Held, Unfinished;
    PopEffect(b, i);
  }

  lemma IssueRaises(b: State, s: State, i: Inputs, op: nat)
    requires Alike(b, s) && i.Valid(b.cfg) && s.req == b.req && op < b.cfg.ops
    ensures Issue(b, s, i).history[op].raised == s.history[op].raised
  {
    hide Stored, Issue, Size, RequestFor;
    IssueEffect(b, s, i);
  }

  lemma OnlyReportingRaises(b: State, i: Inputs, op: nat)
    requires Shaped(b) && i.Valid(b.cfg) && op < b.cfg.ops
    ensures Clock(b, i).history[op].raised == Reporting(b, i).history[op].raised
  {
    var t := Completing(b, Reporting(b, i), i);
    IssueRaises(b, t, i, op);
    hide Stored, Reporting, Completing, Issue, FetchOp, FetchTag;
  }

  // A status is raised at this edge exactly if the popped one ends the last unfinished read of
  // an operation that has no more requests to issue.
  lemma RaisedAtTheEnd(b: State, i: Inputs, op: nat)
    requires Good(b) && i.Valid(b.cfg) && op < b.cfg.ops
    ensures |Clock(b, i).history[op].raised| == |b.history[op].raised|
         + Bit(Finishes(b, i) && b.stRead.status.op == op && !Held(b, op) && Unfinished(b, op) == 1)
  {
    hide Good, Clock, Reporting, Unfinished;
    PoppedRaises(b, i, op);
    OnlyReportingRaises(b, i, op);
  }

  // A slot between two descriptors has issued every request of the last one, and its status
  // reports an error exactly if one of the reads did.
  lemma ReportIsComplete(s: State, l: Link, op: nat)
    requires Good(s) && StreamsOk(s, l) && op < s.cfg.ops
    requires var h := s.history[op]; h.accepted != [] && |h.raised| == |h.accepted|
    ensures var h := s.history[op]; var d := h.accepted[|h.accepted| - 1]; var out := h.raised[|h.raised| - 1];
      && Acceptable(d) && h.requests == Plan(l, d) && |h.codes| == |h.requests|
      && out.tag == d.tag
      && (out.error != DMA_NONE <==> exists k :: 0 <= k < |h.codes| && h.codes[k] != DMA_NONE)
  {
    hide Good, StreamsOk, OnPlan, SlotOk, Plan, LastError;
    ClosedSlot(s, op);
    AllIssued(s, l, op);
    LastErrorMeans(s.history[op].codes);
  }

  lemma ClosedSlot(s: State, op: nat)
    requires Good(s) && op < s.cfg.ops && s.history[op].accepted != []
    requires |s.history[op].raised| == |s.history[op].accepted|
    ensures var h := s.history[op]; var n := |h.raised| - 1;
      && Shaped(s) && !(s.req.busy && Held(s, op)) && |h.codes| == |h.requests|
      && h.raised[n].error == LastError(h.codes) && h.raised[n].tag == h.accepted[n].tag
  {
    SlotIsOk(s, op);
    hide Good, Unfinished, Stored, LastError, Running, Waiting;
  }

  lemma AllIssued(s: State, l: Link, op: nat)
    requires StreamsOk(s, l) && op < s.cfg.ops && !(s.req.busy && Held(s, op)) && s.history[op].accepted != []
    ensures var h := s.history[op]; var d := h.accepted[|h.accepted| - 1]; Acceptable(d) && h.requests == Plan(l, d)
  {
    assert OnPlan(s, l, op);
    assert s.history[op].requests + [] == s.history[op].requests;
    hide Plan, Cut, StreamsOk;
  }

  // And if it reports none, everything every request of the plan asked for has been written.
  lemma CleanReportIsFilled(s: State, l: Link, log: seq<Progress>, f: Ledger, op: nat, k: nat)
    requires Good(s) && StreamsOk(s, l) && FatesOk(s, log, f) && op < s.cfg.ops
    requires var h := s.history[op];
      && h.accepted != [] && |h.raised| == |h.accepted| && h.raised[|h.raised| - 1].error == DMA_NONE
    requires var d := s.history[op].accepted[|s.history[op].accepted| - 1];
      Acceptable(d) && k < |Plan(l, d)|
    ensures var h := s.history[op]; var d := h.accepted[|h.accepted| - 1];
      && h.requests == Plan(l, d) && k < |f.fates[op]|
      && f.fates[op][k].Ended? && f.fates[op][k].error == DMA_NONE
      && Written(s.cfg.geo, Plan(l, d)[k], f.fates[op][k].done)
  {
    hide StreamsOk, FatesOk, TagPlaces, CplTag, StatusesOk, OpsOk, Counted, Gated, Offered, Plan, Unfinished, Stored;
    FatesShaped(s, log, f);
    ReportIsComplete(s, l, op);
    NothingUnfinished(s, op);
    SentIsUnfinished(s, op);
    assert !Recorded(s.history[op].codes);
    SettledFates(s, log, f, op, k);
  }

  lemma NothingUnfinished(s: State, op: nat)
    requires Good(s) && op < s.cfg.ops && |s.history[op].raised| == |s.history[op].accepted|
    ensures Unfinished(s, op) == 0
  {
    StatusPerDescriptor(s, op);
  }

  // So byte `j` of the descriptor is in the interval of one data cycle made for one of its
  // requests, at its place in the descriptor's RAM range.
  lemma CleanReportPlacesByte(l: Link, d: Descriptor, f: seq<Fate>, j: nat) returns (k: nat, c: C.Cycle, n: nat)
    requires l.Valid() && Acceptable(d) && j < d.len
    requires |f| == |Plan(l, d)|
    requires forall i :: 0 <= i < |f| ==> f[i].Ended? && Written(l.geo, Plan(l, d)[i], f[i].done)
    ensures k < |f| && c in f[k].done && n < c.bytes && C.Plus(l.geo, c.start, n) == C.Plus(l.geo, d.ramAddr, j)
  {
    hide Segments, Stream, Tiles, C.Plus, ByteCount, DataStart, Counts, Written;
    var segs := Segments(d.addr, d.ramAddr, d.len, l.maxDw, l.rcb128);
    SegmentsTile(d.addr, d.ramAddr, d.len, l.maxDw, l.rcb128);
    TilesTotal(segs, d.addr, d.ramAddr, d.len);
    k := EveryByteOnce(segs, j);
    var t := Plan(l, d)[k];
    PlannedRange(segs, l.geo, d.addr, d.ramAddr, d.len, k);
    WrittenOwn(l.geo, t, f[k].done);
    var i, o := WholeIsFilled(l.geo, t, f[k].done, j - Offset(segs, k));
    c, n := f[k].done[i], o;
    C.PlusPlus(l.geo, d.ramAddr, Offset(segs, k), j - Offset(segs, k));
  }

  // If its cycles lie in rows, the RAM bytes written for a request are those of its range.
  lemma WrittenInRam(g: C.Geometry, t: ReadTlp, done: seq<C.Cycle>, x: nat)
    requires Written(g, t, done) && g.Whole() && C.AllInRows(g, done) && x < g.ramSpace
    ensures C.WrittenBySome(g, done, x) <==> exists k :: 0 <= k < ByteCount(t) && x == C.Plus(g, DataStart(g, t), k)
  {
    StartInSpace(g, t);
    C.FillsRam(g, done, DataStart(g, t), ByteCount(t), x);
  }

  lemma TilesTotal(segs: seq<ReadTlp>, a: Addr, ramAddr: nat, count: nat)
    requires Tiles(segs, a, ramAddr, count)
    ensures Offset(segs, |segs|) == count
  {
  }

  lemma PlannedRange(segs: seq<ReadTlp>, g: C.Geometry, a: Addr, ramAddr: nat, count: nat, k: nat)
    requires g.Valid() && Tiles(segs, a, ramAddr, count) && k < |segs|
    ensures var t := AllSent(segs, false, g)[k];
      t.bytes == segs[k].bytes && t.ramAddr == C.Plus(g, ramAddr, Offset(segs, k)) < g.ramSpace
  {
    hide Offset;
  }

  lemma WrittenOwn(g: C.Geometry, t: ReadTlp, done: seq<C.Cycle>)
    requires Written(g, t, done) && t.ramAddr < g.ramSpace && t.bytes > 0
    ensures Counts(t) && C.Fills(g, done, DataStart(g, t), ByteCount(t)) && C.Writable(g, done)
    ensures ByteCount(t) == t.bytes && DataStart(g, t) == t.ramAddr
  {
    OwnRange(g, t);
  }

  // With the configured limits the credit counters fit 9 and 12 bits; outstanding data credits
  // stay under 2048.
  lemma ConfiguredCredits(s: State)
    requires Good(s) && s.cfg.cplhLimit == 256 && s.cfg.cpldLimit == 1792
    ensures InFlight(HeaderCredits, s) == s.credits.cplh < 320 && InFlight(DataCredits, s) == s.credits.cpld < 2048
  {
    hide InFlight;
  }
}