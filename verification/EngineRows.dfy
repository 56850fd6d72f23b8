/** For aligned descriptors the RAM bytes written are those of the descriptor's range. */
module EngineRows {
  import opened Arith
  import opened TlpSizing
  import opened TlpStream
  import opened ReadEngine
  import opened EngineTags
  import opened EngineStatus
  import opened EngineCounts
  import opened EngineOps
  import opened EngineStream
  import opened EngineData
  import opened EngineFates
  import C = CompletionPath

  /* Aligned requests. */

  // The RAM has whole rows, and a bus word divides the 128 bytes requests are cut at.
  predicate Wide(g: C.Geometry) {
    g.Valid() && g.Whole() && 128 % g.width == 0
  }

  // The RAM address lies in its bus word where the host address does, in the first dword there.
  predicate Aligned(w: nat, a: Addr, ramAddr: nat)
    requires w > 0
  {
    ramAddr % w == a.InPage() % w < 4
  }

  lemma WordsOfPage(g: C.Geometry)
    requires Wide(g)
    ensures 0x1000 % g.width == 0 && g.ramSpace % g.width == 0
  {
    var w := g.width;
    assert 0x1000 == 32 * 128 && 128 == 128 / w * w;
    assert 32 * (128 / w * w) == (32 * (128 / w)) * w;
    DivMod(0x1000, w, 32 * (128 / w), 0);
    var rows := g.ramSpace / (2 * w);
    assert g.ramSpace == rows * (2 * w) && rows * (2 * w) == (rows * 2) * w;
    DivMod(g.ramSpace, w, rows * 2, 0);
  }

  // A place in a 128-byte block's front is in a bus word's front.
  lemma BlockStartsWord(g: C.Geometry, a: Addr)
    requires Wide(g) && a.InBlock() == 0
    ensures a.InPage() % g.width == 0
  {
    var w := g.width;
    assert a.InPage() == 128 * a.block && 128 == 128 / w * w;
    assert a.block * (128 / w * w) == (a.block * (128 / w)) * w;
    DivMod(a.InPage(), w, a.block * (128 / w), 0);
  }

  // What the request after an aligned one starts with.
  lemma NextAligned(g: C.Geometry, t: ReadTlp)
    requires Wide(g) && t.addr.Valid() && t.next.Valid() && t.addr.InPage() + t.bytes <= 0x1000
    requires StartsBlock(t.next) && t.next.Value() == WrapAddr(t.addr.Value() + t.bytes)
    requires Aligned(g.width, t.addr, t.ramAddr)
    ensures Aligned(g.width, t.next, t.ramAddr + t.bytes)
  {
    var w, end := g.width, t.addr.InPage() + t.bytes;
    BlockStartsWord(g, t.next);
    WordsOfPage(g);
    assert t.next.InPage() == if end == 0x1000 then 0 else end by { NextInPage(t); }
    ModPlus(t.ramAddr, t.bytes, w);
    ModPlus(t.addr.InPage(), t.bytes, w);
    hide C.Geometry.Whole, Addr.InPage;
  }

  lemma NextInPage(t: ReadTlp)
    requires t.addr.Valid() && t.next.Valid() && t.addr.InPage() + t.bytes <= 0x1000
    requires t.next.Value() == WrapAddr(t.addr.Value() + t.bytes)
    ensures t.next.InPage() == if t.addr.InPage() + t.bytes == 0x1000 then 0 else t.addr.InPage() + t.bytes
  {
    SlicesOfValue(t.next);
    var end, page := t.addr.InPage() + t.bytes, t.addr.page;
    hide Addr.InPage;
    if end < 0x1000 {
      DivMod(t.next.Value(), 0x1000, page, end);
    } else {
      DivMod(t.next.Value(), 0x1000, if page + 1 == PAGES then 0 else page + 1, 0);
    }
  }

  lemma {:induction false} StreamAligned(
    g: C.Geometry, segs: seq<ReadTlp>, a: Addr, ramAddr: nat, count: nat, maxDw: nat)
    requires Wide(g) && Stream(segs, a, ramAddr, count, maxDw) && Aligned(g.width, a, ramAddr)
    ensures forall t :: t in segs ==> Aligned(g.width, t.addr, t.ramAddr)
    decreases |segs|
  {
    var t := segs[0];
    hide Aligned, Wide, Reached, Exact, Asks;
    if t.last {
      assert segs == [t];
    } else {
      NextAligned(g, t);
      StreamAligned(g, segs[1..], t.next, ramAddr + t.bytes, count - t.bytes, maxDw);
      assert segs == [t] + segs[1..];
    }
  }

  predicate AlignedDescriptor(g: C.Geometry, d: Descriptor)
    requires g.Valid()
  {
    Aligned(g.width, d.addr, d.ramAddr)
  }

  // All requests of an aligned descriptor are aligned.
  lemma PlanAligned(l: Link, d: Descriptor, k: nat)
    requires l.Valid() && Wide(l.geo) && Acceptable(d) && AlignedDescriptor(l.geo, d) && k < |Plan(l, d)|
    ensures Aligned(l.geo.width, Plan(l, d)[k].addr, Plan(l, d)[k].ramAddr)
  {
    hide Segments, Stream;
    var count := if d.len == 0 then 1 else d.len;
    var segs := Segments(d.addr, d.ramAddr, count, l.maxDw, l.rcb128);
    StreamAligned(l.geo, segs, d.addr, d.ramAddr, count, l.maxDw);
    assert segs[k] in segs;
    WordsOfPage(l.geo);
    ModTwice(segs[k].ramAddr, l.geo.ramSpace, l.geo.width);
    hide Wide;
  }

  // The data of an aligned request starts aligned.
  lemma DataStartsAligned(g: C.Geometry, t: ReadTlp)
    requires Wide(g) && Counts(t) && Aligned(g.width, t.addr, t.ramAddr)
    ensures DataStart(g, t) % g.width == t.addr.InPage() % g.width < 4
  {
    var w, x := g.width, t.ramAddr + t.bytes + g.ramSpace - ByteCount(t);
    WordsOfPage(g);
    ModTwice(x, g.ramSpace, w);
    assert x == t.ramAddr + if t.bytes == 0 then g.ramSpace - 0x1000 else g.ramSpace;
    RowsBack(g, t.ramAddr);
    hide C.Geometry.Whole, ByteCount;
  }

  lemma RowsBack(g: C.Geometry, a: nat)
    requires Wide(g)
    ensures (a + g.ramSpace) % g.width == a % g.width
    ensures (a + (g.ramSpace - 0x1000)) % g.width == a % g.width
  {
    var w := g.width;
    WordsOfPage(g);
    var s, p := g.ramSpace / w, 0x1000 / w;
    assert g.ramSpace == s * w && 0x1000 == p * w && (s - p) * w == s * w - p * w;
    assert s >= p by { NegativeOrNot(s - p, w); }
    ModPlusMultiple(a, s, w);
    ModPlusMultiple(a, s - p, w);
  }

  lemma NegativeOrNot(k: int, w: nat)
    requires w > 0 && k * w >= 0
    ensures k >= 0
  {
  }

  /* The data cycles of aligned requests. */

  // A completion starts at the request's first byte, or where a bus word begins.
  predicate CutHere(g: C.Geometry, p: Progress, span: C.Span)
    requires g.Valid() && p.left <= ByteCount(p.tlp)
  {
    var k := ByteCount(p.tlp) - p.left;
    if k == 0 then span.lowBits == p.tlp.addr.InPage() % 4
    else span.lowBits == 0 && (p.tlp.addr.InPage() + k) % g.width == 0
  }

  // What completers do in addition to being honest.
  predicate CutsAtWords(b: State, i: Inputs, log: seq<Progress>)
    requires Sized(b) && i.Valid(b.cfg) && |log| == b.cfg.tags
  {
    TakesData(b, i) && b.cpl.state != Write ==>
      var p := log[DataTag(b, i)];
      p.left <= ByteCount(p.tlp) ==> CutHere(b.cfg.geo, p, i.beat.value.header.span)
  }

  ghost predicate AlignedProgress(g: C.Geometry, p: Progress)
    requires g.Valid()
  {
    Aligned(g.width, p.tlp.addr, p.tlp.ramAddr)
  }

  lemma HeaderInRows(g: C.Geometry, p: Progress, ramEnd: nat, span: C.Span)
    requires Wide(g) && Placed(g, p, ramEnd) && AlignedProgress(g, p)
    requires span.Valid() && span.byteCount == p.left && CutHere(g, p, span)
    ensures var c := C.FirstCycle(g, ramEnd, span); C.InOneRow(g, c) && C.RestInRows(g, c)
  {
    DataStartsAligned(g, p.tlp);
    StartsWhereLeft(g, p, ramEnd);
    C.AlignedInRows(g, p.tlp.addr.InPage(), DataStart(g, p.tlp), ByteCount(p.tlp) - p.left, ramEnd, span);
    FirstInRows(g, ramEnd, span);
  }

  lemma FirstInRows(g: C.Geometry, ramEnd: nat, span: C.Span)
    requires g.Valid() && g.Whole() && span.Valid() && C.AllInRows(g, C.Cycles(g, C.FirstCycle(g, ramEnd, span)))
    ensures var c := C.FirstCycle(g, ramEnd, span); C.InOneRow(g, c) && C.RestInRows(g, c)
  {
    var c := C.FirstCycle(g, ramEnd, span);
    assert c.last <==> c.left == 0;
    hide C.FirstCycle;
    C.CyclesInRows(g, c);
  }

  ghost predicate RowsOk(s: State, log: seq<Progress>) {
    && Shaped(s) && |log| == s.cfg.tags
    && (forall t :: 0 <= t < s.cfg.tags && Outstanding(s, t) ==> C.AllInRows(s.cfg.geo, log[t].done))
    && (s.cpl.state == Write ==> C.RestInRows(s.cfg.geo, s.cpl.cycle))
    && (s.cpl.finish && s.stWrite.error == DMA_NONE ==> C.AllInRows(s.cfg.geo, log[s.cpl.tag].done))
  }

  ghost predicate AllAligned(s: State, log: seq<Progress>)
    requires Shaped(s) && |log| == s.cfg.tags
  {
    forall t :: 0 <= t < s.cfg.tags && Outstanding(s, t) ==> AlignedProgress(s.cfg.geo, log[t])
  }

  // What an edge needs of the state before it.
  ghost predicate RowSteps(b: State, i: Inputs, log: seq<Progress>) {
    && Shaped(b) && TagPlaces(b) && CplTag(b) && i.Valid(b.cfg) && !TooSoon(b, i)
    && DataOk(b, log) && RowsOk(b, log) && AllAligned(b, log) && Wide(b.cfg.geo)
    && Honest(b, i, log) && CutsAtWords(b, i, log)
  }

  lemma InRowsAppend(g: C.Geometry, cs: seq<C.Cycle>, c: C.Cycle)
    requires g.Valid() && C.AllInRows(g, cs) && C.InOneRow(g, c)
    ensures C.AllInRows(g, cs + [c])
  {
  }

  // A data beat's cycle lies in one row, and so will those to follow.
  lemma BeatInRows(b: State, i: Inputs, log: seq<Progress>)
    requires RowSteps(b, i, log) && TakesData(b, i) && !Ending(b, DataTag(b, i))
    ensures var x := ReceivedNext(b, i).cpl;
      && C.InOneRow(b.cfg.geo, x.cycle) && C.RestInRows(b.cfg.geo, x.cycle)
      && C.AllInRows(b.cfg.geo, log[x.tag].done)
  {
    var x := ReceivedNext(b, i).cpl;
    DataNext(b, i);
    DataIsOutstanding(b, i);
    EndsUnder(b, x.tag);
    hide Stored, TagPlaces, CplTag, TooSoon, ReceivedNext, C.FirstCycle, C.NextCycle, C.AllInRows;
    hide C.InOneRow, C.RestInRows, InPlace, Aligned, Wide, OpOf, Outstanding, CutHere;
    if b.cpl.state == Write {
      WordInRows(b.cfg.geo, log[x.tag], b.cpl.cycle);
    } else {
      PlacedLeft(b.cfg.geo, log[x.tag], b.table[x.tag].entry.ramEnd);
      HeaderInRows(b.cfg.geo, log[x.tag], b.table[x.tag].entry.ramEnd, i.beat.value.header.span);
    }
  }

  lemma PlacedLeft(g: C.Geometry, p: Progress, ramEnd: nat)
    requires Placed(g, p, ramEnd)
    ensures p.left <= ByteCount(p.tlp)
  {
  }

  lemma WordInRows(g: C.Geometry, p: Progress, before: C.Cycle)
    requires Wide(g) && Continues(g, p, before) && C.RestInRows(g, before)
    ensures var c := C.NextCycle(g, before); C.InOneRow(g, c) && C.RestInRows(g, c)
  {
    C.NextInRows(g, before);
  }

  // The progress of a tag whose data the beat brings.
  lemma BeatFollowed(b: State, i: Inputs, log: seq<Progress>)
    requires RowSteps(b, i, log) && TakesData(b, i) && !Ending(b, DataTag(b, i))
    ensures C.AllInRows(b.cfg.geo, Follow(b, i, log)[ReceivedNext(b, i).cpl.tag].done)
  {
    BeatInRows(b, i, log);
    ReceivedProgress(b, i, log);
    hide Follow, ReceivedNext, TakesData, C.InOneRow;
  }

  // An outstanding tag keeps its cycles in rows.
  lemma TagInRows(b: State, i: Inputs, log: seq<Progress>, t: nat)
    requires RowSteps(b, i, log) && t < b.cfg.tags && Outstanding(Clock(b, i), t)
    ensures C.AllInRows(b.cfg.geo, Follow(b, i, log)[t].done)
  {
    hide Stored, TagPlaces, CplTag, TooSoon, Honest, DataOk, AllAligned, Wide, Clock, ReceivedNext, CutsAtWords;
    hide C.InOneRow, Size, RequestFor, ByteCount, Outstanding;
    OutstandingNext(b, i, t);
    if Fires(b, i) && b.req.tag == t {
      FollowFresh(b, i, log);
    } else if TakesData(b, i) && DataTag(b, i) == t {
      EndingIsNotNext(b, t);
      BeatFollowed(b, i, log);
    } else {
      OtherProgress(b, i, log, t);
    }
  }

  lemma EndingIsNotNext(b: State, t: nat)
    requires TagPlaces(b) && CplTag(b) && t < b.cfg.tags && Outstanding(b, t)
    ensures !Ending(b, t)
  {
    assert Places(b, t) == 1;
  }

  // The completion registers after the edge.
  lemma CplInRows(b: State, i: Inputs, log: seq<Progress>)
    requires RowSteps(b, i, log)
    ensures var x, f := ReceivedNext(b, i), Follow(b, i, log);
      && (x.cpl.state == Write ==> C.RestInRows(b.cfg.geo, x.cpl.cycle))
      && (x.cpl.finish && x.status.error == DMA_NONE ==> C.AllInRows(b.cfg.geo, f[x.cpl.tag].done))
  {
    DataNext(b, i);
    if TakesData(b, i) {
      DataIsOutstanding(b, i);
      if !Ending(b, DataTag(b, i)) {
        BeatInRows(b, i, log);
        BeatFollowed(b, i, log);
      }
    }
    hide Stored, TagPlaces, CplTag, TooSoon, Honest, DataOk, AllAligned, Wide, ReceivedNext, Follow, CutsAtWords;
    hide TakesData, C.InOneRow, C.RestInRows, C.AllInRows;
  }

  lemma ClockRows(b: State, i: Inputs, log: seq<Progress>)
    requires RowSteps(b, i, log)
    ensures RowsOk(Clock(b, i), Follow(b, i, log))
  {
    hide Stored, TagPlaces, CplTag, TooSoon, Honest, DataOk, AllAligned, Wide, Clock, ReceivedNext, Follow, CutsAtWords;
    hide C.InOneRow, C.RestInRows, C.AllInRows, Reporting, WriteStatus, Outstanding;
    var r, f := Clock(b, i), Follow(b, i, log);
    StatusRegisters(b, i);
    CplInRows(b, i, log);
    forall t: nat | t < b.cfg.tags && Outstanding(r, t) ensures C.AllInRows(b.cfg.geo, f[t].done) {
      TagInRows(b, i, log, t);
    }
  }

  /* The fates. */

  ghost predicate FatesInRows(s: State, l: Ledger)
    requires Shaped(s) && l.For(s)
  {
    forall op, k :: 0 <= op < s.cfg.ops && 0 <= k < |l.fates[op]| ==>
      l.fates[op][k].Ended? && l.fates[op][k].error == DMA_NONE ==> C.AllInRows(s.cfg.geo, l.fates[op][k].done)
  }

  lemma FateInRows(b: State, i: Inputs, log: seq<Progress>, l: Ledger, op: nat, k: nat)
    requires Shaped(b) && i.Valid(b.cfg) && |log| == b.cfg.tags && l.For(b) && FatesInRows(b, l)
    requires RowsOk(Clock(b, i), Follow(b, i, log))
    requires op < b.cfg.ops && k < |Entered(b, i, log, l).fates[op]|
    requires var fate := Entered(b, i, log, l).fates[op][k]; fate.Ended? && fate.error == DMA_NONE
    ensures C.AllInRows(b.cfg.geo, Entered(b, i, log, l).fates[op][k].done)
  {
    hide Stored, Clock, Entered, Follow, ReceivedNext, C.AllInRows, Reporting, WriteStatus, Outstanding;
    EnteredFates(b, i, log, l, op);
    StatusRegisters(b, i);
  }

  lemma ClockFatesInRows(b: State, i: Inputs, log: seq<Progress>, l: Ledger)
    requires Shaped(b) && i.Valid(b.cfg) && |log| == b.cfg.tags && l.For(b) && FatesInRows(b, l)
    requires RowsOk(Clock(b, i), Follow(b, i, log))
    ensures FatesInRows(Clock(b, i), Entered(b, i, log, l))
  {
    hide Stored, Clock, Entered, Follow, C.AllInRows, RowsOk;
    var g := Entered(b, i, log, l);
    forall op, k | 0 <= op < b.cfg.ops && 0 <= k < |g.fates[op]| && g.fates[op][k].Ended?
        && g.fates[op][k].error == DMA_NONE
      ensures C.AllInRows(b.cfg.geo, g.fates[op][k].done)
    {
      FateInRows(b, i, log, l, op, k);
    }
  }

  /* Aligned descriptors make aligned requests. */

  ghost predicate AcceptedAligned(s: State)
    requires s.cfg.geo.Valid()
  {
    forall h, d :: h in s.history && d in h.accepted ==> AlignedDescriptor(s.cfg.geo, d)
  }

  lemma ClockAccepted(b: State, i: Inputs)
    requires Shaped(b) && Formed(b) && i.Valid(b.cfg) && AcceptedAligned(b)
    requires i.desc.Some? ==> AlignedDescriptor(b.cfg.geo, i.desc.value)
    ensures AcceptedAligned(Clock(b, i))
  {
    hide Stored, Clock, Formed, Aligned, AlignedDescriptor, RequestFor, Size;
    var r := Clock(b, i);
    forall h, d | h in r.history && d in h.accepted ensures AlignedDescriptor(b.cfg.geo, d) {
      var op :| 0 <= op < b.cfg.ops && r.history[op] == h;
      HistoryNext(b, i, op);
      assert b.history[op] in b.history;
    }
  }

  lemma OutstandingIsAligned(s: State, l: Link, log: seq<Progress>, f: Ledger)
    requires StreamsOk(s, l) && Wide(s.cfg.geo) && FatesOk(s, log, f) && AcceptedAligned(s)
    requires TagPlaces(s) && OpsOk(s)
    ensures AllAligned(s, log)
  {
    hide Stored, Wide, OnPlan, TagOk, OpFates, Plan, Outstanding, OpOf, Aligned, TagPlaces, OpsOk;
    FatesShaped(s, log, f);
    forall t: nat | t < s.cfg.tags && Outstanding(s, t) ensures AlignedProgress(s.cfg.geo, log[t]) {
      TagIsAligned(s, l, log, f, t);
    }
  }

  lemma OutstandingIsLive(s: State, t: nat)
    requires TagPlaces(s) && OpsOk(s) && t < s.cfg.tags && Outstanding(s, t)
    ensures s.history[OpOf(s, t)].accepted != []
  {
    var op := OpOf(s, t);
    SlotIsOk(s, op);
    hide TagPlaces, OpsOk, Outstanding, OpOf, Unfinished, Running, Waiting, Closed, Stored;
    if Unfinished(s, op) == 0 {
      NoneOutstanding(s, op, t);
    }
  }

  lemma TagIsAligned(s: State, l: Link, log: seq<Progress>, f: Ledger, t: nat)
    requires StreamsOk(s, l) && Wide(s.cfg.geo) && FatesOk(s, log, f) && AcceptedAligned(s)
    requires TagPlaces(s) && OpsOk(s)
    requires t < s.cfg.tags && Outstanding(s, t)
    ensures AlignedProgress(s.cfg.geo, log[t])
  {
    hide Stored, Wide, OpFates, Plan, Outstanding, OpOf, Aligned, Left, TagPlaces, OpsOk;
    FatesShaped(s, log, f);
    var op := OpOf(s, t);
    OutstandingIsLive(s, t);
    FatesOf(s, log, f, t, op);
    var h, k := s.history[op], f.index[t];
    assert OnPlan(s, l, op) && h in s.history;
    var d := h.accepted[|h.accepted| - 1];
    assert d in h.accepted && Plan(l, d)[k] == h.requests[k];
    PlanAligned(l, d, k);
  }
}
