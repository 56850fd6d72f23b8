/** Runs with aligned descriptors: the RAM bytes written for a descriptor are its range. */
module EngineRanges {
  import opened Arith
  import opened TlpSizing
  import opened TlpStream
  import opened ReadEngine
  import opened EngineTags
  import opened EngineStatus
  import opened EngineOps
  import opened EngineStream
  import opened EngineData
  import opened EngineFates
  import opened EngineRows
  import opened EngineRuns
  import C = CompletionPath

  // The inputs of a run in which descriptors are aligned and completions cut at bus words.
  ghost predicate AlignedRun(s: State, ins: seq<Inputs>, log: seq<Progress>)
    requires Shaped(s) && |log| == s.cfg.tags && HonestRun(s, ins, log)
    decreases |ins|
  {
    ins == [] ||
      (&& (ins[0].desc.Some? ==> AlignedDescriptor(s.cfg.geo, ins[0].desc.value))
       && CutsAtWords(s, ins[0], log)
       && AlignedRun(Clock(s, ins[0]), ins[1..], Follow(s, ins[0], log)))
  }

  // Everything known of a state such a run reaches.
  ghost predicate AllKept(s: State, l: Link, log: seq<Progress>, f: Ledger) {
    && Good(s) && StreamsOk(s, l) && Wide(s.cfg.geo) && DataOk(s, log) && FatesOk(s, log, f)
    && RowsOk(s, log) && FatesInRows(s, f) && AcceptedAligned(s)
  }

  lemma ClockKeeps(b: State, i: Inputs, l: Link, log: seq<Progress>, f: Ledger)
    requires AllKept(b, l, log, f) && i.Valid(b.cfg) && !TooSoon(b, i) && l.For(i)
    requires Honest(b, i, log) && CutsAtWords(b, i, log)
    requires i.desc.Some? ==> AlignedDescriptor(b.cfg.geo, i.desc.value)
    ensures AllKept(Clock(b, i), l, Follow(b, i, log), Entered(b, i, log, f))
  {
    assert OpsOk(b) && Offered(b) && TagPlaces(b) && CplTag(b) && StatusesOk(b);
    hide Good, StreamsOk, Wide, DataOk, FatesOk, RowsOk, FatesInRows, AcceptedAligned, Clock, Follow, Entered;
    hide Honest, CutsAtWords, TooSoon, OpsOk, Offered, TagPlaces, CplTag, Room, Formed, Stored, AllAligned;
    hide AlignedDescriptor;
    ClockGood(b, i);
    ClockStreams(b, i, l);
    ClockData(b, i, log);
    ClockFates(b, i, log, f);
    FatesShaped(b, log, f);
    OutstandingIsAligned(b, l, log, f);
    ClockRows(b, i, log);
    ClockFatesInRows(b, i, log, f);
    ClockAccepted(b, i);
  }

  lemma {:induction false} RunKeepsAll(s: State, ins: seq<Inputs>, l: Link, log: seq<Progress>, f: Ledger)
    requires AllKept(s, l, log, f) && Conforming(s, ins) && HonestRun(s, ins, log) && AlignedRun(s, ins, log)
    requires forall i :: i in ins ==> l.For(i)
    ensures AllKept(Run(s, ins), l, Progressed(s, ins, log), Settling(s, ins, log, f))
    decreases |ins|
  {
    if ins != [] {
      FatesShaped(s, log, f);
      hide AllKept, Clock, TooSoon, Shaped, Follow, Honest, Entered, CutsAtWords, AlignedDescriptor, Good, FatesOk;
      ClockKeeps(s, ins[0], l, log, f);
      RunKeepsAll(Clock(s, ins[0]), ins[1..], l, Follow(s, ins[0], log), Entered(s, ins[0], log, f));
    }
  }

  lemma ResetAll(cfg: Config, l: Link, log: seq<Progress>, f: Ledger)
    requires cfg.Valid() && Shaped(Reset(cfg)) && |log| == cfg.tags && f.For(Reset(cfg)) && Wide(cfg.geo)
    requires (forall op :: 0 <= op < cfg.ops ==> f.fates[op] == []) && l.Valid() && l.geo == cfg.geo
    ensures AllKept(Reset(cfg), l, log, f)
  {
    ResetGood(cfg);
    ResetData(cfg, log);
    ResetFates(cfg, log, f);
    hide Good, DataOk, FatesOk, Wide, Stored;
  }

  // In every state a run reaches from reset.
  lemma EveryAlignedRun(cfg: Config, ins: seq<Inputs>, l: Link, log: seq<Progress>, f: Ledger)
    requires cfg.Valid() && Shaped(Reset(cfg)) && |log| == cfg.tags && f.For(Reset(cfg)) && Wide(cfg.geo)
    requires (forall op :: 0 <= op < cfg.ops ==> f.fates[op] == []) && l.Valid() && l.geo == cfg.geo
    requires Conforming(Reset(cfg), ins) && HonestRun(Reset(cfg), ins, log) && AlignedRun(Reset(cfg), ins, log)
    requires forall i :: i in ins ==> l.For(i)
    ensures AllKept(Run(Reset(cfg), ins), l, Progressed(Reset(cfg), ins, log), Settling(Reset(cfg), ins, log, f))
  {
    ResetAll(cfg, l, log, f);
    hide AllKept, Reset, Shaped, Wide;
    RunKeepsAll(Reset(cfg), ins, l, log, f);
  }

  /* What that means. */

  lemma OwnOrLastPage(l: Link, d: Descriptor, k: nat)
    requires l.Valid() && Acceptable(d) && 0 < d.len && k < |Plan(l, d)|
    requires Counts(Plan(l, d)[k])
    ensures var t := Plan(l, d)[k];
      exists at: nat :: at + ByteCount(t) <= d.len && DataStart(l.geo, t) == C.Plus(l.geo, d.ramAddr, at)
  {
    var t := Plan(l, d)[k];
    if t.bytes > 0 {
      OwnPlace(l, d, k);
      OwnRange(l.geo, t);
    } else {
      ExtraIsLast(l, d, k);
      ExtraReadLandsOnLastPage(l, d);
      OwnPlace(l, d, k - 1);
      OwnRange(l.geo, Plan(l, d)[k - 1]);
    }
  }

  // Where the range the engine counts for a request is in the descriptor's.
  lemma OwnPlace(l: Link, d: Descriptor, k: nat)
    requires l.Valid() && Acceptable(d) && 0 < d.len && k < |Plan(l, d)|
    ensures var t := Plan(l, d)[k];
      && t.ramAddr < l.geo.ramSpace
      && exists at: nat :: at + t.bytes <= d.len && t.ramAddr == C.Plus(l.geo, d.ramAddr, at)
  {
    hide Segments, Stream, Tiles, C.Plus;
    var segs := Segments(d.addr, d.ramAddr, d.len, l.maxDw, l.rcb128);
    SegmentsTile(d.addr, d.ramAddr, d.len, l.maxDw, l.rcb128);
    TilesTotal(segs, d.addr, d.ramAddr, d.len);
    PlannedRange(segs, l.geo, d.addr, d.ramAddr, d.len, k);
    OffsetNext(segs, k);
    OffsetMonotone(segs, k + 1, |segs|);
    assert Offset(segs, k) + Plan(l, d)[k].bytes <= d.len;
  }

  lemma ExtraIsLast(l: Link, d: Descriptor, k: nat)
    requires l.Valid() && Acceptable(d) && 0 < d.len && k < |Plan(l, d)| && Plan(l, d)[k].bytes == 0
    ensures EndsOnFullPage(d.addr, d.len, l.maxDw) && k == |Plan(l, d)| - 1 > 0 && Plan(l, d)[k - 1].bytes == 0x1000
  {
    hide Segments, Stream, EndsOnFullPage;
    var segs := Segments(d.addr, d.ramAddr, d.len, l.maxDw, l.rcb128);
    EmptyRequest(d.addr, d.ramAddr, d.len, l.maxDw, l.rcb128);
    assert segs[k].bytes == 0;
  }

  ghost predicate InRange(g: C.Geometry, d: Descriptor, x: nat)
    requires g.Valid()
  {
    exists j :: 0 <= j < d.len && x == C.Plus(g, d.ramAddr, j)
  }

  ghost predicate WrittenFor(g: C.Geometry, fates: seq<Fate>, x: nat)
    requires g.Valid() && forall k :: 0 <= k < |fates| ==> fates[k].Ended? && C.Writable(g, fates[k].done)
  {
    exists k :: 0 <= k < |fates| && C.WrittenBySome(g, fates[k].done, x)
  }

  // All requests of a descriptor written, in rows.
  ghost predicate AllWritten(l: Link, d: Descriptor, fates: seq<Fate>) {
    && l.Valid() && Wide(l.geo) && Acceptable(d) && 0 < d.len && |fates| == |Plan(l, d)|
    && forall k :: 0 <= k < |fates| ==>
         fates[k].Ended? && Written(l.geo, Plan(l, d)[k], fates[k].done) && C.AllInRows(l.geo, fates[k].done)
  }

  lemma WrittenIsInRange(l: Link, d: Descriptor, fates: seq<Fate>, k: nat, x: nat)
    requires AllWritten(l, d, fates) && x < l.geo.ramSpace && k < |fates|
    requires C.Writable(l.geo, fates[k].done) && C.WrittenBySome(l.geo, fates[k].done, x)
    ensures InRange(l.geo, d, x)
  {
    var g, t := l.geo, Plan(l, d)[k];
    WrittenInRam(g, t, fates[k].done, x);
    OwnOrLastPage(l, d, k);
    hide Plan, C.Plus, C.AllInRows, C.WrittenBySome, ByteCount, DataStart;
    var m :| 0 <= m < ByteCount(t) && x == C.Plus(g, DataStart(g, t), m);
    var at: nat :| at + ByteCount(t) <= d.len && DataStart(g, t) == C.Plus(g, d.ramAddr, at);
    C.PlusPlus(g, d.ramAddr, at, m);
  }

  lemma InRangeIsWritten(l: Link, d: Descriptor, fates: seq<Fate>, x: nat) returns (k: nat)
    requires AllWritten(l, d, fates) && x < l.geo.ramSpace && InRange(l.geo, d, x)
    ensures k < |fates| && C.Writable(l.geo, fates[k].done) && C.WrittenBySome(l.geo, fates[k].done, x)
  {
    var j :| 0 <= j < d.len && x == C.Plus(l.geo, d.ramAddr, j);
    hide Plan, Wide, Acceptable;
    var c, n;
    k, c, n := CleanReportPlacesByte(l, d, fates, j);
    assert C.MeansByte(l.geo, c, x);
    WideIsWhole(l.geo);
    C.OneRowWrites(l.geo, c, x);
  }

  lemma WideIsWhole(g: C.Geometry)
    requires Wide(g)
    ensures g.Valid() && g.Whole()
  {
  }

  // The RAM bytes written for the requests of a descriptor are those of its range.
  lemma WritesRange(l: Link, d: Descriptor, fates: seq<Fate>, x: nat)
    requires AllWritten(l, d, fates) && x < l.geo.ramSpace
    ensures forall k :: 0 <= k < |fates| ==> fates[k].Ended? && C.Writable(l.geo, fates[k].done)
    ensures WrittenFor(l.geo, fates, x) <==> InRange(l.geo, d, x)
  {
    hide Plan, C.WrittenBySome, InRange, Wide, Acceptable;
    if WrittenFor(l.geo, fates, x) {
      var k :| 0 <= k < |fates| && C.WrittenBySome(l.geo, fates[k].done, x);
      WrittenIsInRange(l, d, fates, k, x);
    }
    if InRange(l.geo, d, x) {
      var k := InRangeIsWritten(l, d, fates, x);
    }
  }

  // In every state such a run reaches: when a status without an error has been raised, the RAM
  // bytes written for the descriptor's requests are exactly those of its range.
  lemma CleanReportWritesRange(s: State, l: Link, log: seq<Progress>, f: Ledger, op: nat, x: nat)
    requires AllKept(s, l, log, f) && op < s.cfg.ops && x < s.cfg.geo.ramSpace
    requires var h := s.history[op];
      && h.accepted != [] && |h.raised| == |h.accepted| && h.raised[|h.raised| - 1].error == DMA_NONE
      && 0 < h.accepted[|h.accepted| - 1].len
    ensures var h := s.history[op]; var d := h.accepted[|h.accepted| - 1];
      && AllWritten(l, d, f.fates[op])
      && (forall k :: 0 <= k < |f.fates[op]| ==> f.fates[op][k].Ended? && C.Writable(l.geo, f.fates[op][k].done))
      && (WrittenFor(l.geo, f.fates[op], x) <==> InRange(l.geo, d, x))
  {
    var d := s.history[op].accepted[|s.history[op].accepted| - 1];
    CleanReportAllWritten(s, l, log, f, op);
    hide AllWritten, AllKept, WrittenFor, InRange;
    WritesRange(l, d, f.fates[op], x);
  }

  lemma CleanReportAllWritten(s: State, l: Link, log: seq<Progress>, f: Ledger, op: nat)
    requires AllKept(s, l, log, f) && op < s.cfg.ops
    requires var h := s.history[op];
      && h.accepted != [] && |h.raised| == |h.accepted| && h.raised[|h.raised| - 1].error == DMA_NONE
      && 0 < h.accepted[|h.accepted| - 1].len
    ensures var h := s.history[op]; op < |f.fates| && AllWritten(l, h.accepted[|h.accepted| - 1], f.fates[op])
  {
    hide Good, Wide, DataOk, Plan, Written, C.AllInRows, Stored;
    var d := s.history[op].accepted[|s.history[op].accepted| - 1];
    FatesShaped(s, log, f);
    ReportIsComplete(s, l, op);
    FatesOf(s, log, f, 0, op);
    hide FatesOk, StreamsOk, RowsOk, AcceptedAligned, FateOk;
    forall k: nat | k < |f.fates[op]|
      ensures f.fates[op][k].Ended? && Written(l.geo, Plan(l, d)[k], f.fates[op][k].done)
      ensures C.AllInRows(l.geo, f.fates[op][k].done)
    {
      CleanReportIsFilled(s, l, log, f, op, k);
    }
  }
}
