/** Where the data of a completion goes: the address arithmetic of the receive path. */
module CompletionPath {
  import opened Arith

  // Data bus width in bytes, size of the card's RAM address space. A RAM row is two bus words.
  datatype Geometry = Geometry(width: nat, ramSpace: nat) {
    predicate Valid() {
      4 <= width && 0x1000 < ramSpace
    }

    // The bus carries whole dwords, and the RAM is made of whole rows.
    predicate Whole()
      requires Valid()
    {
      width % 4 == 0 && ramSpace % (2 * width) == 0
    }
  }

  // The fields of a completion header the placement uses: remaining byte count of the request
  // including this completion, payload length in dwords, offset of the first byte in its dword.
  datatype Span = Span(byteCount: nat, dwords: nat, lowBits: nat) {
    predicate Valid() {
      0 < byteCount <= 0x1000 && 0 < dwords <= 0x400 && lowBits < 4
    }

    // Bytes of the request this completion carries.
    function Carries(): nat
      requires Valid()
    {
      if byteCount > dwords * 4 - lowBits then dwords * 4 - lowBits else byteCount
    }
  }

  // Address and count registers after a data cycle. `start` and `bytes` are the write the
  // cycle makes, `next` and `left` what is to follow in this completion.
  datatype Cycle = Cycle(start: nat, bytes: nat, next: nat, left: nat, final: bool, last: bool)

  // Addition on RAM address registers.
  function Plus(g: Geometry, a: nat, n: nat): nat
    requires g.Valid()
  {
    (a + n) % g.ramSpace
  }

  // The table holds the address just behind a request; the header says how much of the request
  // is still to come.
  function FirstCycle(g: Geometry, end: nat, s: Span): Cycle
    requires g.Valid() && s.Valid()
  {
    var start := (end + g.ramSpace - s.byteCount) % g.ramSpace;
    if s.byteCount > s.dwords * 4 - s.lowBits then
      // more completions to follow
      var count := s.dwords * 4 - s.lowBits;
      if s.dwords > g.width / 4 then
        Cycle(start, g.width - s.lowBits, Plus(g, start, g.width - s.lowBits), count - (g.width - s.lowBits),
            false, false)
      else Cycle(start, count, Plus(g, start, count), 0, false, true)
    else
      // last completion
      if s.byteCount > g.width - s.lowBits then
        Cycle(start, g.width - s.lowBits, Plus(g, start, g.width - s.lowBits), s.byteCount - (g.width - s.lowBits),
            true, false)
      else Cycle(start, s.byteCount, Plus(g, start, s.byteCount), 0, true, true)
  }

  function NextCycle(g: Geometry, c: Cycle): Cycle
    requires g.Valid()
  {
    var bytes := if c.left > g.width then g.width else c.left;
    Cycle(c.next, bytes, Plus(g, c.next, bytes), c.left - bytes, c.final, c.left <= g.width)
  }

  // The data cycles of one completion.
  function Cycles(g: Geometry, c: Cycle): (cs: seq<Cycle>)
    requires g.Valid()
    ensures cs != []
    decreases c.left, if c.last then 0 else 1
  {
    if c.last then [c] else [c] + Cycles(g, NextCycle(g, c))
  }

  /* Writes that follow one another. */

  // The writes of the cycles, in order, fill `count` bytes from address `start` on.
  ghost predicate Fills(g: Geometry, cs: seq<Cycle>, start: nat, count: nat)
    requires g.Valid()
  {
    if cs == [] then count == 0
    else
      && cs[0].bytes <= count && cs[0].start == start
      && Fills(g, cs[1..], Plus(g, start, cs[0].bytes), count - cs[0].bytes)
  }

  lemma PlusPlus(g: Geometry, a: nat, m: nat, n: nat)
    requires g.Valid()
    ensures Plus(g, Plus(g, a, m), n) == Plus(g, a, m + n)
  {
    var sum, space := a + m, g.ramSpace;
    assert Plus(g, a, m) == sum % space && a + (m + n) == sum + n;
    ModPlus(sum, n, space);
  }

  lemma PlusNothing(g: Geometry, a: nat)
    requires g.Valid() && a < g.ramSpace
    ensures Plus(g, a, 0) == a
  {
    DivSmall(a, g.ramSpace);
  }

  lemma {:induction false} FillsConcat(g: Geometry, cs: seq<Cycle>, ds: seq<Cycle>, start: nat, m: nat, n: nat)
    requires g.Valid() && start == Plus(g, start, 0)
    requires Fills(g, cs, start, m) && Fills(g, ds, Plus(g, start, m), n)
    ensures Fills(g, cs + ds, start, m + n)
  {
    hide Plus;
    if cs == [] {
      assert cs + ds == ds;
    } else {
      var b := cs[0].bytes;
      assert (cs + ds)[1..] == cs[1..] + ds;
      PlusPlus(g, start, b, m - b);
      PlusPlus(g, start, b, 0);
      FillsConcat(g, cs[1..], ds, Plus(g, start, b), m - b, n);
    }
  }

  // Byte `k` of a filled range is written once, at its address.
  lemma {:induction false} FilledOnce(g: Geometry, cs: seq<Cycle>, start: nat, count: nat, k: nat)
    returns (i: nat, j: nat)
    requires g.Valid() && start < g.ramSpace && Fills(g, cs, start, count) && k < count
    ensures i < |cs| && j < cs[i].bytes && Plus(g, cs[i].start, j) == Plus(g, start, k)
    ensures k == Before(cs, i) + j
  {
    if k < cs[0].bytes {
      i, j := 0, k;
    } else {
      var b := cs[0].bytes;
      i, j := FilledOnce(g, cs[1..], Plus(g, start, b), count - b, k - b);
      PlusPlus(g, start, b, k - b);
      i := i + 1;
    }
  }

  // Bytes written before cycle `i`.
  function Before(cs: seq<Cycle>, i: nat): nat
    requires i <= |cs|
  {
    if i == 0 then 0 else cs[0].bytes + Before(cs[1..], i - 1)
  }

  // And nothing else is written.
  lemma {:induction false} FillsTotal(g: Geometry, cs: seq<Cycle>, start: nat, count: nat)
    requires g.Valid() && Fills(g, cs, start, count)
    ensures Before(cs, |cs|) == count
  {
    if cs != [] {
      FillsTotal(g, cs[1..], Plus(g, start, cs[0].bytes), count - cs[0].bytes);
    }
  }

  /* One completion. */

  lemma {:induction false} RestFills(g: Geometry, c: Cycle)
    requires g.Valid() && (c.last <==> c.left == 0) && c.next == Plus(g, c.start, c.bytes)
    ensures Fills(g, Cycles(g, c), c.start, c.bytes + c.left)
    ensures |Cycles(g, c)| == 1 + (c.left + g.width - 1) / g.width
    ensures forall d :: d in Cycles(g, c) ==> d.final == c.final && (d.last <==> d.left == 0)
    decreases c.left, if c.last then 0 else 1
  {
    if c.last {
      DivSmall(g.width - 1, g.width);
      assert Cycles(g, c)[1..] == [];
    } else {
      var d := NextCycle(g, c);
      RestFills(g, d);
      assert Cycles(g, c)[1..] == Cycles(g, d);
      CeilStep(c.left, g.width);
    }
  }

  // One bus word less is one cycle less.
  lemma CeilStep(left: nat, w: nat)
    requires w > 0 && left > 0
    ensures (left + w - 1) / w == 1 + ((if left > w then left - w else 0) + w - 1) / w
  {
    DivOnce(left - 1, w);
    if left <= w {
      DivSmall(left - 1, w);
      DivSmall(w - 1, w);
    }
  }

  // A completion's writes fill the part of the request it carries, which starts `byteCount`
  // bytes before the request's end, in as many bus words as its payload occupies; it is final
  // exactly when nothing is left after it.
  lemma CompletionFills(g: Geometry, end: nat, s: Span)
    requires g.Valid() && g.Whole() && s.Valid() && end < g.ramSpace
    ensures var cs := Cycles(g, FirstCycle(g, end, s));
      && Fills(g, cs, (end + g.ramSpace - s.byteCount) % g.ramSpace, s.Carries())
      && |cs| == (s.lowBits + s.Carries() + g.width - 1) / g.width
      && (forall c :: c in cs ==> (c.final <==> s.Carries() == s.byteCount))
  {
    var c := FirstCycle(g, end, s);
    RestFills(g, c);
    assert g.width / 4 * 4 == g.width;
    assert c.bytes + c.left == s.Carries();
    if c.last {
      assert s.lowBits + s.Carries() <= g.width;
      DivSmall(s.lowBits + s.Carries() - 1, g.width);
      DivOnce(s.lowBits + s.Carries() - 1, g.width);
      DivSmall(g.width - 1, g.width);
    } else {
      DivOnce(c.left + g.width - 1, g.width);
      assert s.lowBits + s.Carries() + g.width - 1 == (c.left + g.width - 1) + g.width;
    }
  }

  /* A request, over any split into completions and any interleaving with other requests. */

  // An outstanding read request by tag: its RAM range ends before `end`, `total` bytes long.
  datatype Request = Request(end: nat, total: nat)

  datatype Completion = Completion(tag: nat, span: Span)

  // Bytes of each request still to come after the completions received so far.
  ghost function Left(reqs: map<nat, Request>, cpls: seq<Completion>, tag: nat): int
    requires tag in reqs && forall c :: c in cpls ==> c.span.Valid()
  {
    if cpls == [] then reqs[tag].total
    else
      var last := cpls[|cpls| - 1];
      var before := Left(reqs, cpls[..|cpls| - 1], tag);
      if last.tag == tag then before - last.span.Carries() else before
  }

  // What a completer promises: only outstanding requests are answered, and each completion
  // states how much of its request is still to come.
  ghost predicate Conforming(reqs: map<nat, Request>, cpls: seq<Completion>) {
    && (forall c :: c in cpls ==> c.span.Valid() && c.tag in reqs)
    && forall i :: 0 <= i < |cpls| ==> cpls[i].span.byteCount == Left(reqs, cpls[..i], cpls[i].tag)
  }

  // The cycles the completions of one tag take, in order.
  ghost function CyclesOf(g: Geometry, reqs: map<nat, Request>, cpls: seq<Completion>, tag: nat): seq<Cycle>
    requires g.Valid() && tag in reqs && forall c :: c in cpls ==> c.span.Valid()
  {
    if cpls == [] then []
    else
      var last := cpls[|cpls| - 1];
      var before := CyclesOf(g, reqs, cpls[..|cpls| - 1], tag);
      if last.tag == tag then before + Cycles(g, FirstCycle(g, reqs[tag].end, last.span)) else before
  }

  ghost predicate RequestsFit(g: Geometry, reqs: map<nat, Request>) {
    forall t :: t in reqs ==> reqs[t].end < g.ramSpace && 0 < reqs[t].total <= 0x1000
  }

  lemma ConformingPrefix(reqs: map<nat, Request>, cpls: seq<Completion>)
    requires Conforming(reqs, cpls) && cpls != []
    ensures forall c :: c in cpls ==> c.span.Valid() && c.tag in reqs
    ensures var last := cpls[|cpls| - 1];
      last.tag in reqs && last.span.Valid() && last.span.byteCount == Left(reqs, cpls[..|cpls| - 1], last.tag)
    ensures Conforming(reqs, cpls[..|cpls| - 1])
  {
    forall i | 0 <= i < |cpls| - 1 ensures cpls[..|cpls| - 1][..i] == cpls[..i] {}
  }

  // Where a request's writes begin.
  function StartOf(g: Geometry, r: Request): nat
    requires g.Valid() && r.end < g.ramSpace && r.total <= 0x1000
  {
    (r.end + g.ramSpace - r.total) % g.ramSpace
  }

  ghost predicate Releases(cs: seq<Cycle>) {
    exists c :: c in cs && c.final && c.last
  }

  // One more completion of a request.
  lemma RequestStep(g: Geometry, r: Request, done: seq<Cycle>, s: Span)
    requires g.Valid() && g.Whole() && r.end < g.ramSpace && s.Valid() && s.byteCount <= r.total <= 0x1000
    requires Fills(g, done, StartOf(g, r), r.total - s.byteCount) && !Releases(done)
    ensures var cs := done + Cycles(g, FirstCycle(g, r.end, s));
      && Fills(g, cs, StartOf(g, r), r.total - s.byteCount + s.Carries())
      && (Releases(cs) <==> s.Carries() == s.byteCount)
  {
    var c := FirstCycle(g, r.end, s);
    var more := Cycles(g, c);
    CompletionFills(g, r.end, s);
    ModPlus(r.end + g.ramSpace - r.total, 0, g.ramSpace);
    ModPlus(r.end + g.ramSpace - r.total, r.total - s.byteCount, g.ramSpace);
    FillsConcat(g, done, more, StartOf(g, r), r.total - s.byteCount, s.Carries());
    LastIsLast(g, c);
    var z := more[|more| - 1];
    assert z in more && z in done + more;
    if Releases(done + more) {
      var d :| d in done + more && d.final && d.last;
      assert d in more;
    }
  }

  lemma LastCompletion(g: Geometry, reqs: map<nat, Request>, cpls: seq<Completion>, tag: nat)
    requires g.Valid() && cpls != [] && tag in reqs && forall c :: c in cpls ==> c.span.Valid()
    ensures var n := |cpls| - 1; var earlier, last := cpls[..n], cpls[n];
      && last in cpls && (forall c :: c in earlier ==> c in cpls)
      && (last.tag == tag ==>
            && Left(reqs, cpls, tag) == Left(reqs, earlier, tag) - last.span.Carries()
            && CyclesOf(g, reqs, cpls, tag)
            == CyclesOf(g, reqs, earlier, tag) + Cycles(g, FirstCycle(g, reqs[tag].end, last.span)))
      && (last.tag != tag ==>
            && Left(reqs, cpls, tag) == Left(reqs, earlier, tag)
            && CyclesOf(g, reqs, cpls, tag) == CyclesOf(g, reqs, earlier, tag))
  {
    hide Cycles, FirstCycle, Span.Carries;
  }

  // Whatever the split and the interleaving, the writes made for a request fill its RAM range
  // from the front without gap or overlap, and its tag is released by a cycle exactly when
  // that cycle completes the range.
  lemma {:induction false} RequestFills(g: Geometry, reqs: map<nat, Request>, cpls: seq<Completion>, tag: nat)
    requires g.Valid() && g.Whole() && RequestsFit(g, reqs) && Conforming(reqs, cpls) && tag in reqs
    ensures 0 <= Left(reqs, cpls, tag) <= reqs[tag].total
    ensures Fills(g, CyclesOf(g, reqs, cpls, tag), StartOf(g, reqs[tag]), reqs[tag].total - Left(reqs, cpls, tag))
    ensures Releases(CyclesOf(g, reqs, cpls, tag)) <==> Left(reqs, cpls, tag) == 0
  {
    hide Geometry.Whole, Plus, FirstCycle, Cycles, StartOf, Fills, Releases, Left, CyclesOf;
    if cpls == [] {
      NoCompletions(g, reqs, tag);
    } else {
      var n := |cpls| - 1;
      var earlier, last := cpls[..n], cpls[n];
      ConformingPrefix(reqs, cpls);
      hide Conforming;
      LastCompletion(g, reqs, cpls, tag);
      RequestFills(g, reqs, earlier, tag);
      if last.tag == tag {
        RequestStep(g, reqs[tag], CyclesOf(g, reqs, earlier, tag), last.span);
      }
    }
  }

  lemma NoCompletions(g: Geometry, reqs: map<nat, Request>, tag: nat)
    requires g.Valid() && RequestsFit(g, reqs) && tag in reqs
    ensures Left(reqs, [], tag) == reqs[tag].total && CyclesOf(g, reqs, [], tag) == []
    ensures Fills(g, [], StartOf(g, reqs[tag]), 0) && !Releases([])
  {
  }

  lemma {:induction false} LastIsLast(g: Geometry, c: Cycle)
    requires g.Valid()
    ensures Cycles(g, c)[|Cycles(g, c)| - 1].last
    decreases c.left, if c.last then 0 else 1
  {
    if !c.last {
      LastIsLast(g, NextCycle(g, c));
    }
  }

  /* The byte enables of one cycle. */

  // A cycle addresses one RAM row and enables bytes of it by their offset; a range that runs
  // past the end of the row enables the offsets at the front of the same row.
  predicate Enables(g: Geometry, c: Cycle, offset: nat)
    requires g.Valid() && 0 < c.bytes <= g.width
  {
    var first := c.start % (2 * g.width);
    var wraps := first + c.bytes - 1 >= 2 * g.width;
    var last := (first + c.bytes - 1) % (2 * g.width);
    if wraps then offset >= first || offset <= last else first <= offset <= last
  }

  predicate WritesByte(g: Geometry, c: Cycle, x: nat)
    requires g.Valid() && 0 < c.bytes <= g.width
  {
    x / (2 * g.width) == c.start / (2 * g.width) && Enables(g, c, x % (2 * g.width))
  }

  ghost predicate MeansByte(g: Geometry, c: Cycle, x: nat)
    requires g.Valid()
  {
    exists k :: 0 <= k < c.bytes && x == Plus(g, c.start, k)
  }

  predicate InOneRow(g: Geometry, c: Cycle)
    requires g.Valid()
  {
    c.start % (2 * g.width) + c.bytes <= 2 * g.width
  }

  // Inside one row, the enabled offsets are those of the range.
  lemma OneRowEnables(g: Geometry, c: Cycle, offset: nat)
    requires g.Valid() && 0 < c.bytes <= g.width && InOneRow(g, c)
    ensures var first := c.start % (2 * g.width);
      Enables(g, c, offset) <==> first <= offset < first + c.bytes
  {
    DivSmall(c.start % (2 * g.width) + c.bytes - 1, 2 * g.width);
  }

  // Nor does the range run past the end of the RAM.
  lemma OneRowFits(g: Geometry, c: Cycle)
    requires g.Valid() && g.Whole() && 0 < c.bytes && c.start < g.ramSpace && InOneRow(g, c)
    ensures c.start + c.bytes <= g.ramSpace
  {
    var w := 2 * g.width;
    var _ := RowsOf(c.start, w, g.ramSpace);
    assert (c.start / w + 1) * w == c.start / w * w + w;
  }

  lemma WrittenIsMeant(g: Geometry, c: Cycle, x: nat)
    requires g.Valid() && g.Whole() && 0 < c.bytes <= g.width && c.start < g.ramSpace && x < g.ramSpace
    requires InOneRow(g, c) && WritesByte(g, c, x)
    ensures MeansByte(g, c, x)
  {
    OneRowEnables(g, c, x % (2 * g.width));
    OneRowFits(g, c);
    RowAndOffset(c.start, x, 2 * g.width);
    hide Enables, InOneRow, Geometry.Whole;
    var k := x - c.start;
    DivSmall(c.start + k, g.ramSpace);
    assert x == Plus(g, c.start, k);
  }

  lemma MeantIsWritten(g: Geometry, c: Cycle, x: nat)
    requires g.Valid() && g.Whole() && 0 < c.bytes <= g.width && c.start < g.ramSpace && x < g.ramSpace
    requires InOneRow(g, c) && MeansByte(g, c, x)
    ensures WritesByte(g, c, x)
  {
    var w, k :| w == 2 * g.width && 0 <= k < c.bytes && x == Plus(g, c.start, k);
    OneRowFits(g, c);
    DivSmall(c.start + k, g.ramSpace);
    OffsetInRow(c.start, k, w);
    OneRowEnables(g, c, x % w);
    hide Enables, InOneRow, Geometry.Whole;
  }

  // Two addresses in one row are as far apart as their offsets.
  lemma RowAndOffset(x: nat, y: nat, w: nat)
    requires w > 0 && x / w == y / w
    ensures y - x == y % w - x % w
  {
  }

  lemma OffsetInRow(x: nat, k: nat, w: nat)
    requires w > 0 && x % w + k < w
    ensures (x + k) / w == x / w && (x + k) % w == x % w + k
  {
    DivMod(x + k, w, x / w, x % w + k);
  }

  lemma OneRowWrites(g: Geometry, c: Cycle, x: nat)
    requires g.Valid() && g.Whole() && 0 < c.bytes <= g.width && c.start < g.ramSpace && x < g.ramSpace
    requires InOneRow(g, c)
    ensures WritesByte(g, c, x) <==> MeansByte(g, c, x)
  {
    hide WritesByte, MeansByte, InOneRow, Geometry.Whole;
    if WritesByte(g, c, x) {
      WrittenIsMeant(g, c, x);
    }
    if MeansByte(g, c, x) {
      MeantIsWritten(g, c, x);
    }
  }

  // The first byte past the row is meant and not written.
  lemma TwoRowsMiss(g: Geometry, c: Cycle) returns (x: nat)
    requires g.Valid() && g.Whole() && 2 * g.width < g.ramSpace && 0 < c.bytes <= g.width && c.start < g.ramSpace
    requires !InOneRow(g, c)
    ensures x < g.ramSpace && MeansByte(g, c, x) && !WritesByte(g, c, x)
  {
    var w := 2 * g.width;
    var row, first := c.start / w, c.start % w;
    var rows := RowsOf(c.start, w, g.ramSpace);
    var k := w - first;
    assert c.start + k == (row + 1) * w by {
      assert (row + 1) * w == row * w + w;
    }
    x := Plus(g, c.start, k);
    if row + 1 < rows {
      assert (rows - (row + 1)) * w >= w by { MulOutgrows(rows - (row + 1), w); }
      DivSmall((row + 1) * w, g.ramSpace);
      DivMod(x, w, row + 1, 0);
    } else {
      DivMod((row + 1) * w, g.ramSpace, 1, 0);
      DivMod(0, w, 0, 0);
      assert rows > 1;
    }
  }

  // A cycle writes exactly the bytes it means to if and only if they lie in one RAM row.
  lemma CycleWritesItsBytes(g: Geometry, c: Cycle)
    requires g.Valid() && g.Whole() && 2 * g.width < g.ramSpace && 0 < c.bytes <= g.width && c.start < g.ramSpace
    ensures (forall x :: 0 <= x < g.ramSpace ==> (WritesByte(g, c, x) <==> MeansByte(g, c, x))) <==> InOneRow(g, c)
  {
    if InOneRow(g, c) {
      forall x: int | 0 <= x < g.ramSpace ensures WritesByte(g, c, x) <==> MeansByte(g, c, x) {
        OneRowWrites(g, c, x);
      }
    } else {
      var x := TwoRowsMiss(g, c);
    }
  }

  // 64 bytes that end at address 160, on a bus of 64 bytes: they start 32 bytes before the end
  // of a row of 128. Byte 128 is meant and not written, and byte 0 the other way round.
  lemma CrossingCycle(g: Geometry, s: Span, c: Cycle)
    requires g == Geometry(64, 0x4_0000) && s == Span(64, 16, 0) && c == FirstCycle(g, 160, s)
    ensures s.Valid() && c.start == 96 && c.bytes == 64 && !InOneRow(g, c)
    ensures MeansByte(g, c, 128) && !WritesByte(g, c, 128)
    ensures WritesByte(g, c, 0) && !MeansByte(g, c, 0)
  {
    assert Plus(g, c.start, 32) == 128;
    forall k | 0 <= k < 64 ensures Plus(g, 96, k) == 96 + k {
      DivSmall(96 + k, g.ramSpace);
    }
  }

  /* Which completions stay inside rows. */

  ghost predicate AllInRows(g: Geometry, cs: seq<Cycle>)
    requires g.Valid()
  {
    forall c :: c in cs ==> InOneRow(g, c)
  }

  lemma AllInRowsCons(g: Geometry, c: Cycle, cs: seq<Cycle>)
    requires g.Valid()
    ensures AllInRows(g, [c] + cs) <==> InOneRow(g, c) && AllInRows(g, cs)
    ensures AllInRows(g, [c]) <==> InOneRow(g, c)
  {
    assert c in [c] + cs && c in [c];
    forall d | d in cs ensures d in [c] + cs {}
  }

  // What is to follow a cycle starts with a bus word, or ends in the row it starts in.
  predicate RestInRows(g: Geometry, c: Cycle)
    requires g.Valid()
  {
    c.left == 0 || c.next % g.width == 0 || c.next % (2 * g.width) + c.left <= 2 * g.width
  }

  // An address in the RAM is at the place in its row it would have in an endless RAM.
  lemma PlaceInRow(g: Geometry, a: nat, n: nat)
    requires g.Valid() && g.Whole()
    ensures Plus(g, a, n) % (2 * g.width) == (a + n) % (2 * g.width)
  {
    ModTwice(a + n, g.ramSpace, 2 * g.width);
  }

  // A bus word starts at the beginning or in the middle of a row.
  lemma WordsOfRow(x: nat, w: nat)
    requires w > 0
    ensures x % w == if x % (2 * w) < w then x % (2 * w) else x % (2 * w) - w
  {
    var q, r := x / (2 * w), x % (2 * w);
    assert x == q * (2 * w) + r && q * (2 * w) == (2 * q) * w;
    if r < w {
      DivMod(x, w, 2 * q, r);
    } else {
      assert (2 * q + 1) * w == (2 * q) * w + w;
      DivMod(x, w, 2 * q + 1, r - w);
    }
  }

  // Going on by at most a row.
  lemma StepInRow(x: nat, n: nat, row: nat)
    requires n <= row && row > 0
    ensures (x + n) % row == if x % row + n < row then x % row + n else x % row + n - row
  {
    ModPlus(x, n, row);
    if x % row + n < row {
      DivSmall(x % row + n, row);
    } else {
      DivMod(x % row + n, row, 1, x % row + n - row);
    }
  }

  // Where a cycle's address after it is in its row and in its bus word.
  lemma PlaceAfter(g: Geometry, a: nat, n: nat)
    requires g.Valid() && g.Whole() && n <= 2 * g.width
    ensures var w, o, u := g.width, a % (2 * g.width), Plus(g, a, n) % (2 * g.width);
      && u == (if o + n < 2 * w then o + n else o + n - 2 * w)
      && Plus(g, a, n) % w == (if u < w then u else u - w)
      && a % w == (if o < w then o else o - w)
  {
    PlaceInRow(g, a, n);
    StepInRow(a, n, 2 * g.width);
    WordsOfRow(Plus(g, a, n), g.width);
    WordsOfRow(a, g.width);
    hide Plus, Geometry.Whole;
  }

  lemma NextInRows(g: Geometry, c: Cycle)
    requires g.Valid() && g.Whole() && c.left > 0
    ensures var d := NextCycle(g, c); RestInRows(g, c) <==> InOneRow(g, d) && RestInRows(g, d)
  {
    var d := NextCycle(g, c);
    PlaceAfter(g, c.next, d.bytes);
    hide Plus, Geometry.Whole;
  }

  lemma {:induction false} CyclesInRows(g: Geometry, c: Cycle)
    requires g.Valid() && g.Whole() && (c.last <==> c.left == 0)
    ensures AllInRows(g, Cycles(g, c)) <==> InOneRow(g, c) && RestInRows(g, c)
    decreases c.left
  {
    AllInRowsCons(g, c, if c.last then [] else Cycles(g, NextCycle(g, c)));
    if !c.last {
      NextInRows(g, c);
      CyclesInRows(g, NextCycle(g, c));
    }
    hide AllInRows, InOneRow, RestInRows, Plus, Geometry.Whole;
  }

  // All cycles of a completion are written where they are meant exactly if its data starts in
  // its bus word where the lowest address bits say, or the part of the request it carries lies
  // in one row.
  lemma CompletionInRows(g: Geometry, end: nat, s: Span)
    requires g.Valid() && g.Whole() && s.Valid() && end < g.ramSpace
    ensures var start := (end + g.ramSpace - s.byteCount) % g.ramSpace;
      AllInRows(g, Cycles(g, FirstCycle(g, end, s)))
      <==> start % g.width == s.lowBits || start % (2 * g.width) + s.Carries() <= 2 * g.width
  {
    var c := FirstCycle(g, end, s);
    assert (c.last <==> c.left == 0) && c.next == Plus(g, c.start, c.bytes) && c.bytes + c.left == s.Carries()
        && (if c.last then c.bytes <= g.width - s.lowBits else c.bytes == g.width - s.lowBits);
    hide FirstCycle;
    CyclesInRows(g, c);
    PlaceAfter(g, c.start, c.bytes);
    hide Plus, Geometry.Whole, AllInRows, Span.Carries, Cycles;
  }

  // A request whose RAM address lies in its bus word where its host address does, and in the
  // first dword there, is written in place, if its completions are cut where bus words begin.
  lemma AlignedInRows(g: Geometry, host: nat, ram: nat, k: nat, end: nat, s: Span)
    requires g.Valid() && g.Whole() && s.Valid() && end < g.ramSpace && ram % g.width == host % g.width
    requires (end + g.ramSpace - s.byteCount) % g.ramSpace == Plus(g, ram, k)
    requires if k == 0 then s.lowBits == host % 4 && host % g.width < 4 else s.lowBits == 0 && (host + k) % g.width == 0
    ensures AllInRows(g, Cycles(g, FirstCycle(g, end, s)))
  {
    var w := g.width;
    CompletionInRows(g, end, s);
    PlaceInRow(g, ram, k);
    WordsOfRow(Plus(g, ram, k), w);
    WordsOfRow(ram + k, w);
    ModPlus(ram, k, w);
    ModPlus(host, k, w);
    if k == 0 {
      WordOfDword(host, w);
    }
    hide AllInRows, Plus, FirstCycle, Cycles;
  }

  lemma WordOfDword(x: nat, w: nat)
    requires w > 0 && w % 4 == 0 && x % w < 4
    ensures x % w == x % 4
  {
    var q, n := x / w, w / 4;
    assert x == q * w + x % w && w == n * 4 && q * (n * 4) == (q * n) * 4;
    DivMod(x, 4, q * n, x % w);
  }

  // A completion that carries a request on from its byte `k`, cut where a bus word begins.
  predicate CutFrom(w: nat, host: nat, total: nat, k: nat, s: Span)
    requires w > 0
  {
    && s.Valid() && k < total && s.byteCount == total - k
    && if k == 0 then s.lowBits == host % 4 else s.lowBits == 0 && (host + k) % w == 0
  }

  // The cycles of a completion of a request at RAM address `ram`.
  function CyclesFor(g: Geometry, ram: nat, total: nat, s: Span): seq<Cycle>
    requires g.Valid() && s.Valid()
  {
    Cycles(g, FirstCycle(g, Plus(g, ram, total), s))
  }

  ghost predicate AlwaysInRows(g: Geometry, host: nat, ram: nat, total: nat)
    requires g.Valid()
  {
    forall k, s :: CutFrom(g.width, host, total, k, s) ==> AllInRows(g, CyclesFor(g, ram, total, s))
  }

  lemma StartsAt(g: Geometry, ram: nat, total: nat, k: nat)
    requires g.Valid() && k <= total <= 0x1000
    ensures (Plus(g, ram, total) + g.ramSpace - (total - k)) % g.ramSpace == Plus(g, ram, k)
  {
    var back, space := g.ramSpace - (total - k), g.ramSpace;
    ModPlus(ram + total, back, space);
    DivOnce(ram + k, space);
    assert ram + total + back == (ram + k) + space;
  }

  // What one cut says of the alignment, if what follows does not fit a row.
  lemma CutSays(g: Geometry, ram: nat, total: nat, k: nat, s: Span)
    requires g.Valid() && g.Whole() && s.Valid() && k < total <= 0x1000 && s.byteCount == total - k == s.Carries()
    requires 2 * g.width < total - k
    ensures AllInRows(g, CyclesFor(g, ram, total, s)) <==> (ram + k) % g.width == s.lowBits
  {
    StartsAt(g, ram, total, k);
    CompletionInRows(g, Plus(g, ram, total), s);
    PlaceInRow(g, ram, k);
    WordsOfRow(Plus(g, ram, k), g.width);
    WordsOfRow(ram + k, g.width);
    hide AllInRows, Plus, FirstCycle, Cycles, Geometry.Whole;
  }

  // For a request of more than three bus words, the alignment is needed as well.
  lemma AlignedExactly(g: Geometry, host: nat, ram: nat, total: nat)
    requires g.Valid() && g.Whole() && 3 * g.width < total && host % 4 + total <= 0x1000
    ensures AlwaysInRows(g, host, ram, total) <==> ram % g.width == host % g.width < 4
  {
    hide AllInRows, Plus, CyclesFor, Geometry.Whole, Span.Carries;
    if ram % g.width == host % g.width < 4 {
      forall k, s | CutFrom(g.width, host, total, k, s) ensures AllInRows(g, CyclesFor(g, ram, total, s)) {
        AlignedCut(g, host, ram, total, k, s);
      }
    }
    if AlwaysInRows(g, host, ram, total) {
      NeedsAlignment(g, host, ram, total);
    }
  }

  lemma AlignedCut(g: Geometry, host: nat, ram: nat, total: nat, k: nat, s: Span)
    requires g.Valid() && g.Whole() && total <= 0x1000 && ram % g.width == host % g.width < 4
    requires CutFrom(g.width, host, total, k, s)
    ensures AllInRows(g, CyclesFor(g, ram, total, s))
  {
    StartsAt(g, ram, total, k);
    AlignedInRows(g, host, ram, k, Plus(g, ram, total), s);
  }

  // A completion of everything from byte `k` on.
  lemma RestSpan(total: nat, k: nat, low: nat) returns (s: Span)
    requires k < total && low < 4 && low + total <= 0x1000
    ensures s.Valid() && s.byteCount == total - k && s.lowBits == low && s.Carries() == total - k
  {
    s := Span(total - k, (low + total - k + 3) / 4, low);
  }

  lemma NeedsAlignment(g: Geometry, host: nat, ram: nat, total: nat)
    requires g.Valid() && g.Whole() && 3 * g.width < total && host % 4 + total <= 0x1000
    requires AlwaysInRows(g, host, ram, total)
    ensures ram % g.width == host % g.width < 4
  {
    hide AllInRows, CyclesFor, Span.Carries;
    var w, r := g.width, host % g.width;
    var whole := RestSpan(total, 0, host % 4);
    assert CutFrom(w, host, total, 0, whole);
    CutSays(g, ram, total, 0, whole);
    if r == 0 {
      WordOfDword(host, w);
    } else {
      var rest := RestSpan(total, w - r, 0);
      ModPlus(host, w - r, w);
      DivMod(w, w, 1, 0);
      assert CutFrom(w, host, total, w - r, rest);
      CutSays(g, ram, total, w - r, rest);
      ModPlus(ram, w - r, w);
      BackToWord(ram % w, r, w);
    }
  }

  lemma BackToWord(x: nat, r: nat, w: nat)
    requires 0 < r < w && x < w && (x + (w - r)) % w == 0
    ensures x == r
  {
    if x < r {
      DivSmall(x + (w - r), w);
    } else {
      DivMod(x + (w - r), w, 1, x - r);
    }
  }

  // Cycles that write something, inside the RAM.
  ghost predicate Writable(g: Geometry, cs: seq<Cycle>)
    requires g.Valid()
  {
    forall c :: c in cs ==> 0 < c.bytes <= g.width && c.start < g.ramSpace
  }

  ghost predicate WrittenBySome(g: Geometry, cs: seq<Cycle>, x: nat)
    requires g.Valid() && Writable(g, cs)
  {
    exists c :: c in cs && WritesByte(g, c, x)
  }

  // Cycles in rows that fill a range write the RAM bytes of the range and no others.
  lemma {:induction false} FillsRam(g: Geometry, cs: seq<Cycle>, start: nat, count: nat, x: nat)
    requires g.Valid() && g.Whole() && Fills(g, cs, start, count) && Writable(g, cs) && AllInRows(g, cs)
    requires start < g.ramSpace && x < g.ramSpace
    ensures WrittenBySome(g, cs, x) <==> exists k :: 0 <= k < count && x == Plus(g, start, k)
  {
    if cs != [] {
      var c, rest, b := cs[0], cs[1..], cs[0].bytes;
      assert cs == [c] + rest;
      AllInRowsCons(g, c, rest);
      OneRowWrites(g, c, x);
      assert Plus(g, start, b) < g.ramSpace;
      hide Plus, Geometry.Whole, AllInRows, InOneRow, WritesByte;
      FillsRam(g, rest, Plus(g, start, b), count - b, x);
      assert WrittenBySome(g, cs, x) <==> WritesByte(g, c, x) || WrittenBySome(g, rest, x);
      RangeCons(g, start, b, count, x);
    }
  }

  lemma RangeCons(g: Geometry, start: nat, b: nat, count: nat, x: nat)
    requires g.Valid() && b <= count
    ensures (exists k :: 0 <= k < count && x == Plus(g, start, k))
       <==> (exists k :: 0 <= k < b && x == Plus(g, start, k))
            || (exists k :: 0 <= k < count - b && x == Plus(g, Plus(g, start, b), k))
  {
    forall k: nat ensures Plus(g, Plus(g, start, b), k) == Plus(g, start, b + k) {
      PlusPlus(g, start, b, k);
    }
    hide Plus;
    if k :| 0 <= k < count && x == Plus(g, start, k) && k >= b {
      assert x == Plus(g, Plus(g, start, b), k - b);
    }
    if k :| 0 <= k < count - b && x == Plus(g, Plus(g, start, b), k) {
      assert x == Plus(g, start, b + k);
    }
  }
}
