/** A read request that finishes without an error has had all it asked for written, each byte once. */
module EngineData {
  import opened Options
  import opened Arith
  import opened TlpSizing
  import opened TlpStream
  import opened ReadEngine
  import opened EngineTags
  import opened EngineStatus
  import EngineStream
  import C = CompletionPath

  // Of the request issued under a tag: how much is still to come, and the data cycles so far.
  datatype Progress = Progress(tlp: ReadTlp, left: nat, done: seq<C.Cycle>)

  // A beat whose data is written: an accepted header without error, or a further data word.
  predicate TakesData(b: State, i: Inputs)
    requires Sized(b) && i.Valid(b.cfg)
  {
    TakesBeat(b, i) && (b.cpl.state == Write || TakesGoodHeader(b, i))
  }

  predicate TakesGoodHeader(b: State, i: Inputs)
    requires Sized(b) && i.Valid(b.cfg)
  {
    && TakesHeader(b, i)
    && var beat := i.beat.value; var h := beat.header;
       !Unexpected(h, b.table[h.tag % b.cfg.tags]) && !Malformed(h, beat.error) && !Terminates(h, beat.error)
  }

  // The cycle a data beat makes, and its tag.
  function DataCycle(b: State, i: Inputs): C.Cycle
    requires Sized(b) && i.Valid(b.cfg)
  {
    ReceivedNext(b, i).cpl.cycle
  }

  function DataTag(b: State, i: Inputs): (t: nat)
    requires Sized(b) && i.Valid(b.cfg)
    ensures t < b.cfg.tags
  {
    ReceivedNext(b, i).cpl.tag
  }

  // What a completer promises: a completion states how much of what its request asked for is
  // still to come, and does not end before its data.
  predicate Honest(b: State, i: Inputs, log: seq<Progress>)
    requires Sized(b) && i.Valid(b.cfg) && |log| == b.cfg.tags
  {
    TakesData(b, i) ==>
      if b.cpl.state == Write then i.beat.value.eop ==> DataCycle(b, i).last
      else i.beat.value.header.span.byteCount == log[DataTag(b, i)].left
  }

  function Advanced(p: Progress, c: C.Cycle): Progress {
    p.(left := if c.bytes <= p.left then p.left - c.bytes else 0, done := p.done + [c])
  }

  function Follow(b: State, i: Inputs, log: seq<Progress>): (l: seq<Progress>)
    requires Sized(b) && i.Valid(b.cfg) && |log| == b.cfg.tags
    ensures |l| == |log|
  {
    var t := DataTag(b, i);
    var received := if TakesData(b, i) then log[t := Advanced(log[t], DataCycle(b, i))] else log;
    if Fires(b, i) then
      var z := Size(b, i);
      var tlp := RequestFor(b.req.addr, b.req.ramAddr, b.req.zeroLen, z);
      received[b.req.tag := Progress(tlp, ByteCount(tlp), [])]
    else received
  }

  // The header asks for the bytes the engine counts, or for a page where it counts none.
  predicate Counts(t: ReadTlp) {
    ByteCount(t) == Asked(t) && t.bytes <= 0x1000
  }

  // Where the data of a request goes: as many bytes as it asks for, up to the end of the range
  // the engine counts.
  function DataStart(g: C.Geometry, t: ReadTlp): nat
    requires g.Valid() && Counts(t)
  {
    (t.ramAddr + t.bytes + g.ramSpace - ByteCount(t)) % g.ramSpace
  }

  // The cycles so far fill that range from the front.
  ghost predicate InPlace(g: C.Geometry, p: Progress) {
    && g.Valid() && Counts(p.tlp) && p.left <= ByteCount(p.tlp) && p.tlp.ramAddr < g.ramSpace
    && C.Fills(g, p.done, DataStart(g, p.tlp), ByteCount(p.tlp) - p.left) && C.Writable(g, p.done)
  }

  // The table holds the address behind the request.
  ghost predicate Placed(g: C.Geometry, p: Progress, ramEnd: nat) {
    InPlace(g, p) && ramEnd == C.Plus(g, p.tlp.ramAddr, p.tlp.bytes)
  }

  // In the middle of a completion: its next word continues the range.
  ghost predicate Continues(g: C.Geometry, p: Progress, c: C.Cycle) {
    && InPlace(g, p) && !c.last
    && c.next == C.Plus(g, DataStart(g, p.tlp), ByteCount(p.tlp) - p.left)
    && 0 < c.left <= p.left && (c.final <==> c.left == p.left)
  }

  ghost predicate DataOk(s: State, log: seq<Progress>) {
    && Shaped(s) && |log| == s.cfg.tags && Poised(s)
    && (forall t :: 0 <= t < s.cfg.tags && s.table[t].Active() && !Ending(s, t) ==>
          Placed(s.cfg.geo, log[t], s.table[t].entry.ramEnd))
    && (s.start.en ==> Placed(s.cfg.geo, log[s.start.tag], s.start.entry.ramEnd))
    && (s.cpl.state == Write ==> Continues(s.cfg.geo, log[s.cpl.tag], s.cpl.cycle))
    && (s.cpl.finish && s.stWrite.error == DMA_NONE ==> InPlace(s.cfg.geo, log[s.cpl.tag]) && log[s.cpl.tag].left == 0)
  }

  // The position in a descriptor is one it leads to.
  ghost predicate Poised(s: State) {
    s.req.busy ==> Reached(s.req.addr, s.req.count) && (s.req.zeroLen ==> s.req.count == 1)
  }

  /* One data cycle. */

  // Where the engine counts bytes, the data goes to its own range.
  lemma OwnRange(g: C.Geometry, t: ReadTlp)
    requires g.Valid() && Counts(t) && t.ramAddr < g.ramSpace && t.bytes > 0
    ensures ByteCount(t) == t.bytes && DataStart(g, t) == t.ramAddr
  {
    DivOnce(t.ramAddr, g.ramSpace);
    DivSmall(t.ramAddr, g.ramSpace);
    hide ByteCount;
  }

  lemma CycleFills(g: C.Geometry, p: Progress, c: C.Cycle)
    requires InPlace(g, p) && 0 < c.bytes <= p.left && c.bytes <= g.width && c.start < g.ramSpace
    requires c.start == C.Plus(g, DataStart(g, p.tlp), ByteCount(p.tlp) - p.left)
    ensures InPlace(g, Advanced(p, c))
    ensures C.Plus(g, c.start, c.bytes) == C.Plus(g, DataStart(g, p.tlp), ByteCount(p.tlp) - (p.left - c.bytes))
  {
    var start, m := DataStart(g, p.tlp), ByteCount(p.tlp) - p.left;
    hide C.Plus, ByteCount, DataStart;
    C.PlusNothing(g, start);
    C.PlusPlus(g, start, m, c.bytes);
    assert C.Fills(g, [c], C.Plus(g, start, m), c.bytes) by {
      assert [c][1..] == [];
    }
    C.FillsConcat(g, p.done, [c], start, m, c.bytes);
  }

  // The address a completion starts at.
  lemma StartsWhereLeft(g: C.Geometry, p: Progress, ramEnd: nat)
    requires Placed(g, p, ramEnd)
    ensures (ramEnd + g.ramSpace - p.left) % g.ramSpace
         == C.Plus(g, DataStart(g, p.tlp), ByteCount(p.tlp) - p.left)
  {
    hide C.Plus, ByteCount, C.Fills;
    BackFromEnd(g, p.tlp, ramEnd, p.left);
  }

  lemma BackFrom(g: C.Geometry, end: nat, total: nat, left: nat)
    requires g.Valid() && left <= total <= g.ramSpace
    ensures C.Plus(g, C.Plus(g, end, 0), g.ramSpace - left)
         == C.Plus(g, C.Plus(g, end, g.ramSpace - total), total - left)
  {
    hide C.Plus;
    C.PlusPlus(g, end, 0, g.ramSpace - left);
    C.PlusPlus(g, end, g.ramSpace - total, total - left);
  }

  lemma InPlusTerms(g: C.Geometry, t: ReadTlp, ramEnd: nat, left: nat)
    requires g.Valid() && Counts(t) && left <= ByteCount(t)
    ensures C.Plus(g, t.ramAddr, t.bytes) == C.Plus(g, t.ramAddr + t.bytes, 0) && ByteCount(t) <= 0x1000 < g.ramSpace
    ensures DataStart(g, t) == C.Plus(g, t.ramAddr + t.bytes, g.ramSpace - ByteCount(t))
    ensures (ramEnd + g.ramSpace - left) % g.ramSpace == C.Plus(g, ramEnd, g.ramSpace - left)
  {
    hide ByteCount;
  }

  lemma BackFromEnd(g: C.Geometry, t: ReadTlp, ramEnd: nat, left: nat)
    requires g.Valid() && Counts(t) && left <= ByteCount(t) && ramEnd == C.Plus(g, t.ramAddr, t.bytes)
    ensures (ramEnd + g.ramSpace - left) % g.ramSpace == C.Plus(g, DataStart(g, t), ByteCount(t) - left)
  {
    hide ByteCount, Counts, C.Plus, DataStart;
    InPlusTerms(g, t, ramEnd, left);
    BackFrom(g, t.ramAddr + t.bytes, ByteCount(t), left);
  }

  lemma HeaderContinues(g: C.Geometry, p: Progress, ramEnd: nat, span: C.Span)
    requires Placed(g, p, ramEnd) && span.Valid() && span.byteCount == p.left
    ensures var c := C.FirstCycle(g, ramEnd, span); var q := Advanced(p, c);
      && InPlace(g, q)
      && (!c.last ==> Continues(g, q, c))
      && (c.last ==> (c.final <==> q.left == 0))
  {
    var c := C.FirstCycle(g, ramEnd, span);
    StartsWhereLeft(g, p, ramEnd);
    assert c.bytes <= g.width && c.start < g.ramSpace;
    assert 0 < c.bytes <= p.left && c.left <= p.left - c.bytes && (c.final <==> c.left == p.left - c.bytes)
        && (c.last <==> c.left == 0);
    assert c.next == C.Plus(g, c.start, c.bytes);
    hide C.FirstCycle, C.Plus;
    CycleFills(g, p, c);
  }

  lemma WordContinues(g: C.Geometry, p: Progress, before: C.Cycle)
    requires Continues(g, p, before)
    ensures var c := C.NextCycle(g, before); var q := Advanced(p, c);
      && InPlace(g, q)
      && (!c.last ==> Continues(g, q, c))
      && (c.last ==> (c.final <==> q.left == 0))
  {
    var c := C.NextCycle(g, before);
    assert c.start < g.ramSpace;
    CycleFills(g, p, c);
    hide C.Plus;
  }

  /* One clock edge. */

  // The table writes of an edge: at the tag released and at the tag starting.
  function TableAfter(b: State): (table: seq<TagSlot>)
    requires Sized(b)
    ensures |table| == b.cfg.tags
  {
    var ended := if b.cpl.finish then b.table[b.cpl.tag := b.table[b.cpl.tag].(b := b.table[b.cpl.tag].a)] else b.table;
    if b.start.en then ended[b.start.tag := ended[b.start.tag].(entry := b.start.entry, a := !b.table[b.start.tag].b)]
    else ended
  }

  lemma ClockTable(b: State, i: Inputs)
    requires Shaped(b) && i.Valid(b.cfg)
    ensures Clock(b, i).table == TableAfter(b)
  {
    var w := WriteStatus(b, Reporting(b, i));
    assert w.table == b.table && w.start == b.start by { hide Stored, Reporting, WriteStatus; }
    hide Stored, Reporting, WriteStatus, Receive, Requesting, Compare;
  }

  // An outstanding tag was outstanding before and is not ending, or is the one starting.
  lemma TableNext(b: State, t: nat)
    requires Sized(b) && t < b.cfg.tags && TableAfter(b)[t].Active()
    ensures var e := TableAfter(b)[t].entry;
      (b.start.en && t == b.start.tag && e == b.start.entry)
      || (b.table[t].Active() && !Ending(b, t) && e == b.table[t].entry)
  {
  }

  lemma StartNext(b: State, i: Inputs)
    requires TagPlaces(b) && CplTag(b) && i.Valid(b.cfg)
    ensures var r, z := Clock(b, i), Size(b, i);
      && r.start.en == Fires(b, i)
      && (Fires(b, i) ==> r.start.tag == b.req.tag && r.start.entry.ramEnd == RamAfter(b, z))
  {
    var s := Reporting(b, i);
    var t := Completing(b, s, i);
    hide Stored, Reporting, Completing, FetchOp, FetchTag, Compare, ReqNext, Size, RamAfter, TagPlaces, CplTag, TooSoon;
    TagsElsewhere(b, s);
    CompletingTags(b, s, i);
  }

  // What the completion registers say after a beat with data, and after any other edge.
  lemma DataNext(b: State, i: Inputs)
    requires Sized(b) && i.Valid(b.cfg)
    ensures var x := ReceivedNext(b, i);
      if TakesData(b, i) then
        var stops := x.cpl.cycle.last || (b.cpl.state == Write && i.beat.value.eop);
        && (x.cpl.state == Write <==> !stops) && (x.cpl.finish <==> stops && x.cpl.cycle.final)
        && (if b.cpl.state == Write then x.cpl.tag == b.cpl.tag && x.cpl.cycle == C.NextCycle(b.cfg.geo, b.cpl.cycle)
            else x.cpl.tag == i.beat.value.header.tag % b.cfg.tags
                 && x.cpl.cycle == C.FirstCycle(b.cfg.geo, b.table[x.cpl.tag].entry.ramEnd, i.beat.value.header.span))
      else
        && (x.cpl.state == Write ==> b.cpl.state == Write && x.cpl.cycle == b.cpl.cycle && x.cpl.tag == b.cpl.tag)
        && (x.cpl.finish ==> x.status.error != DMA_NONE)
  {
    hide C.FirstCycle, C.NextCycle;
  }

  // A data beat is for an outstanding tag; an accepted one that goes on, or ends the request,
  // is not for the tag that is just ending.
  lemma DataIsOutstanding(b: State, i: Inputs)
    requires Shaped(b) && CplTag(b) && i.Valid(b.cfg) && !TooSoon(b, i) && TakesData(b, i)
    ensures var x := ReceivedNext(b, i);
      && b.table[x.cpl.tag].Active()
      && (Ending(b, x.cpl.tag) ==> x.cpl.state != Write && !x.cpl.finish)
  {
    DataNext(b, i);
    hide Stored, C.FirstCycle, C.NextCycle, ReceivedNext;
  }

  // The progress of the received tag after the edge.
  lemma ReceivedProgress(b: State, i: Inputs, log: seq<Progress>)
    requires TagPlaces(b) && CplTag(b) && i.Valid(b.cfg) && !TooSoon(b, i) && DataOk(b, log) && Honest(b, i, log)
    requires TakesData(b, i) && !Ending(b, DataTag(b, i))
    ensures var x := ReceivedNext(b, i); var t := x.cpl.tag; var p, q := log[t], Follow(b, i, log)[t];
      && q == Advanced(p, x.cpl.cycle) && InPlace(b.cfg.geo, q)
      && (x.cpl.state == Write ==> Continues(b.cfg.geo, q, x.cpl.cycle))
      && (x.cpl.finish ==> q.left == 0)
  {
    var x := ReceivedNext(b, i);
    var t := x.cpl.tag;
    DataNext(b, i);
    DataIsOutstanding(b, i);
    HeldIsNotOutstanding(b, t);
    hide Stored, TagPlaces, CplTag, TooSoon, ReceivedNext, C.FirstCycle;
    hide C.NextCycle, InPlace, Continues, Size, RequestFor;
    if b.cpl.state == Write {
      WordContinues(b.cfg.geo, log[t], b.cpl.cycle);
    } else {
      HeaderContinues(b.cfg.geo, log[t], b.table[t].entry.ramEnd, i.beat.value.header.span);
    }
  }

  lemma HeldIsNotOutstanding(b: State, t: nat)
    requires TagPlaces(b) && t < b.cfg.tags && (b.table[t].Active() || (b.start.en && b.start.tag == t))
    ensures b.req.tagValid ==> b.req.tag != t
    ensures b.table[t].Active() ==> !(b.start.en && b.start.tag == t)
  {
    assert Places(b, t) == 1;
  }

  /* The invariant. */

  // Progress is noted for the received tag and for the tag of a new request only.
  lemma OtherProgress(b: State, i: Inputs, log: seq<Progress>, t: nat)
    requires Sized(b) && i.Valid(b.cfg) && |log| == b.cfg.tags && t < b.cfg.tags
    requires !(TakesData(b, i) && DataTag(b, i) == t) && !(Fires(b, i) && b.req.tag == t)
    ensures Follow(b, i, log)[t] == log[t]
  {
    hide DataTag, DataCycle, TakesData, Fires, Size, RequestFor;
  }

  // An outstanding tag stays on its range.
  lemma TableData(b: State, i: Inputs, log: seq<Progress>, t: nat)
    requires TagPlaces(b) && CplTag(b) && i.Valid(b.cfg) && !TooSoon(b, i) && DataOk(b, log) && Honest(b, i, log)
    requires t < b.cfg.tags && Clock(b, i).table[t].Active()
    ensures Placed(b.cfg.geo, Follow(b, i, log)[t], Clock(b, i).table[t].entry.ramEnd)
  {
    ClockTable(b, i);
    TableNext(b, t);
    HeldIsNotOutstanding(b, t);
    if TakesData(b, i) && DataTag(b, i) == t {
      DataIsOutstanding(b, i);
      ReceivedProgress(b, i, log);
      hide Stored, TagPlaces, CplTag, TooSoon, Clock, TableAfter, TakesData, ReceivedNext, InPlace, Honest, C.Plus;
    } else {
      OtherProgress(b, i, log, t);
      hide Stored, TagPlaces, CplTag, TooSoon, Clock, TableAfter;
      hide Follow, TakesData, ReceivedNext, InPlace, Honest, C.Plus;
    }
  }

  // A new request starts with nothing received.
  lemma StartData(b: State, i: Inputs, log: seq<Progress>)
    requires TagPlaces(b) && CplTag(b) && Poised(b) && i.Valid(b.cfg) && |log| == b.cfg.tags && Clock(b, i).start.en
    ensures Placed(b.cfg.geo, Follow(b, i, log)[Clock(b, i).start.tag], Clock(b, i).start.entry.ramEnd)
  {
    StartNext(b, i);
    FreshPlaced(b, i);
    FollowFresh(b, i, log);
    hide Stored, TagPlaces, CplTag, Clock, Follow, Size, RamAfter, RequestFor, Placed, Poised, ByteCount;
  }

  lemma FollowFresh(b: State, i: Inputs, log: seq<Progress>)
    requires Sized(b) && i.Valid(b.cfg) && |log| == b.cfg.tags && Fires(b, i)
    ensures var tlp := RequestFor(b.req.addr, b.req.ramAddr, b.req.zeroLen, Size(b, i));
      Follow(b, i, log)[b.req.tag] == Progress(tlp, ByteCount(tlp), [])
  {
    hide TakesData, DataTag, DataCycle, Size, RequestFor, Fires, ByteCount;
  }

  lemma FreshPlaced(b: State, i: Inputs)
    requires Sized(b) && i.Valid(b.cfg) && Poised(b) && Fires(b, i)
    ensures var tlp := RequestFor(b.req.addr, b.req.ramAddr, b.req.zeroLen, Size(b, i));
      Placed(b.cfg.geo, Progress(tlp, ByteCount(tlp), []), RamAfter(b, Size(b, i)))
  {
    FreshCounts(b, i);
    StartInSpace(b.cfg.geo, RequestFor(b.req.addr, b.req.ramAddr, b.req.zeroLen, Size(b, i)));
    hide Size, C.Plus, FirstLanes, LastLanes, Both, ByteCount, Counts, DataStart, Poised;
  }

  lemma StartInSpace(g: C.Geometry, t: ReadTlp)
    requires g.Valid() && Counts(t)
    ensures DataStart(g, t) < g.ramSpace
  {
  }

  lemma FreshCounts(b: State, i: Inputs)
    requires Sized(b) && i.Valid(b.cfg) && Poised(b) && b.req.busy
    ensures Counts(RequestFor(b.req.addr, b.req.ramAddr, b.req.zeroLen, Size(b, i)))
  {
    hide SizeTlp, RequestFor, Exact, ByteCount, Reached;
    SizeInPage(b, i);
    if b.req.zeroLen {
      ZeroLengthCounts(b.req.addr, b.req.ramAddr, i.maxDw, i.rcb128);
    } else {
      EnablesAreExact(b.req.addr, b.req.ramAddr, b.req.count, i.maxDw, i.rcb128);
      ExactCounts(RequestFor(b.req.addr, b.req.ramAddr, false, Size(b, i)));
    }
    BytesOfRequest(b.req.addr, b.req.ramAddr, b.req.zeroLen, Size(b, i));
  }

  lemma BytesOfRequest(a: Addr, ramAddr: nat, zeroLen: bool, z: TlpSize)
    ensures RequestFor(a, ramAddr, zeroLen, z).bytes == z.tlpCount
  {
  }

  lemma SizeInPage(b: State, i: Inputs)
    requires Sized(b) && i.Valid(b.cfg)
    ensures Size(b, i).tlpCount <= 0x1000
  {
    if b.req.count == 0 {
      SizeOfNothing(b.req.addr, i.maxDw, i.rcb128);
    } else {
      SizeIsSound(b.req.addr, b.req.count, i.maxDw, i.rcb128);
    }
  }

  /* The position. */

  // What a request that is not the last one leaves is reached again, and is no zero-length
  // operation.
  lemma StaysReached(a: Addr, count: nat, maxDw: nat, rcb128: bool)
    requires a.Valid() && count < LEN_SPACE && IsMaxDwords(maxDw) && !SizeTlp(a, count, maxDw, rcb128).last
    ensures var z := SizeTlp(a, count, maxDw, rcb128);
      z.tlpCount <= count && Reached(z.next, (count - z.tlpCount) % LEN_SPACE) && count != 1
  {
    hide SizeTlp;
    if count == 0 {
      SizeOfNothing(a, maxDw, rcb128);
    } else {
      SizeIsSound(a, count, maxDw, rcb128);
      SplitsAreAligned(a, count, maxDw, rcb128);
      DivSmall(count - SizeTlp(a, count, maxDw, rcb128).tlpCount, LEN_SPACE);
    }
  }

  lemma PoisedNext(b: State, i: Inputs)
    requires Sized(b) && i.Valid(b.cfg) && Poised(b)
    ensures var q := ReqNext(b, i); q.busy ==> Reached(q.addr, q.count) && (q.zeroLen ==> q.count == 1)
  {
    hide ReqNext, RamAfter, RequestFor, Reached, SizeTlp;
    EngineStream.PositionNext(b, i);
    if Fires(b, i) && !Size(b, i).last {
      StaysReached(b.req.addr, b.req.count, i.maxDw, i.rcb128);
    }
    if Accepts(b, i) {
      SomeReached(i.desc.value.addr, ReqNext(b, i).count);
    }
  }

  lemma SomeReached(a: Addr, count: nat)
    requires count > 0
    ensures Reached(a, count)
  {
  }

  lemma ClockReq(b: State, i: Inputs)
    requires Shaped(b) && i.Valid(b.cfg)
    ensures var q, r := ReqNext(b, i), Clock(b, i).req;
      r.busy == q.busy && r.addr == q.addr && r.count == q.count && r.zeroLen == q.zeroLen
  {
    var t := Completing(b, Reporting(b, i), i);
    EngineStream.IssueReq(b, t, i);
    hide Stored, Reporting, Completing, Issue, ReqNext;
  }

  lemma ClockPoised(b: State, i: Inputs)
    requires Shaped(b) && i.Valid(b.cfg) && Poised(b)
    ensures Poised(Clock(b, i))
  {
    PoisedNext(b, i);
    ClockReq(b, i);
    hide Stored, Clock, ReqNext, Reached;
  }

  // The completion registers after the edge.
  lemma CplData(b: State, i: Inputs, log: seq<Progress>)
    requires TagPlaces(b) && CplTag(b) && i.Valid(b.cfg) && !TooSoon(b, i) && DataOk(b, log) && Honest(b, i, log)
    ensures var x, l := ReceivedNext(b, i), Follow(b, i, log);
      && (x.cpl.state == Write ==> Continues(b.cfg.geo, l[x.cpl.tag], x.cpl.cycle))
      && (x.cpl.finish && x.status.error == DMA_NONE ==> InPlace(b.cfg.geo, l[x.cpl.tag]) && l[x.cpl.tag].left == 0)
  {
    var x := ReceivedNext(b, i);
    DataNext(b, i);
    if TakesData(b, i) {
      DataIsOutstanding(b, i);
      if !Ending(b, x.cpl.tag) {
        ReceivedProgress(b, i, log);
      }
    } else if x.cpl.state == Write {
      HeldIsNotOutstanding(b, b.cpl.tag);
      OtherProgress(b, i, log, b.cpl.tag);
    }
    hide Stored, TagPlaces, TooSoon, ReceivedNext, Follow, TakesData, InPlace, Continues, Honest;
  }

  // With honest completions, split and interleaved in any way and under any stalls, every
  // outstanding request's RAM range is filled from the front; a request that finishes without
  // an error has had all of it written, each byte once.
  lemma ClockData(b: State, i: Inputs, log: seq<Progress>)
    requires TagPlaces(b) && CplTag(b) && i.Valid(b.cfg) && !TooSoon(b, i) && DataOk(b, log) && Honest(b, i, log)
    ensures DataOk(Clock(b, i), Follow(b, i, log))
  {
    hide Stored, TagPlaces, CplTag, TooSoon, Clock, Follow, ReceivedNext;
    hide Placed, InPlace, Continues, Honest, Reporting, WriteStatus, Poised, RequestFor;
    var r, l := Clock(b, i), Follow(b, i, log);
    StatusRegisters(b, i);
    ClockPoised(b, i);
    CplData(b, i, log);
    if r.start.en {
      StartData(b, i, log);
    }
    forall t | 0 <= t < b.cfg.tags && r.table[t].Active() ensures Placed(b.cfg.geo, l[t], r.table[t].entry.ramEnd) {
      TableData(b, i, log, t);
    }
  }

  lemma ResetData(cfg: Config, log: seq<Progress>)
    requires cfg.Valid() && Shaped(Reset(cfg)) && |log| == cfg.tags
    ensures DataOk(Reset(cfg), log)
  {
  }
}
