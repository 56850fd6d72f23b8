/** The read requests issued for one descriptor, and the bytes they ask for. */
module TlpStream {
  import opened Arith
  import opened TlpSizing

  // Four byte-enable lanes, lane 0 first.
  type Lanes = l: seq<bool> | |l| == 4 witness [false, false, false, false]

  // A read request: the bytes the engine takes it to cover, the header's Length field and byte
  // enables, and the position it leaves the descriptor at.
  datatype ReadTlp = ReadTlp(addr: Addr, ramAddr: nat, bytes: nat, length: nat,
                             firstBe: Lanes, lastBe: Lanes, last: bool, next: Addr)

  const NO_LANES: Lanes := [false, false, false, false]

  // All ones shifted left by the byte offset of the first byte.
  function FirstLanes(a: Addr): Lanes {
    seq(4, l => l >= a.byte)
  }

  // All ones shifted right so that the lane of the last byte stays.
  function LastLanes(a: Addr, bytes: nat): Lanes {
    seq(4, l => l < 4 - (3 - (a.byte + bytes % 4 - 1) % 4))
  }

  function Both(f: Lanes, g: Lanes): Lanes {
    seq(4, l requires 0 <= l < 4 => f[l] && g[l])
  }

  // The request header for the current position, with the dword count in the ten bits of its
  // Length field. A zero-length operation reads one dword with no lane enabled.
  function RequestFor(a: Addr, ramAddr: nat, zeroLen: bool, s: TlpSize): ReadTlp {
    ReadTlp(a, ramAddr, s.tlpCount, s.dwords % 0x400,
            if zeroLen then NO_LANES
            else if s.dwords == 1 then Both(FirstLanes(a), LastLanes(a, s.tlpCount)) else FirstLanes(a),
            if zeroLen || s.dwords == 1 then NO_LANES else LastLanes(a, s.tlpCount),
            s.last, s.next)
  }

  /* What a request asks for. */

  // Dwords on the wire: a Length field of zero stands for 1024, in requests as in completions.
  function Asks(t: ReadTlp): (dw: nat)
    ensures dw > 0
  {
    if t.length == 0 then 0x400 else t.length
  }

  function Lowest(l: Lanes): nat {
    if l[0] then 0 else if l[1] then 1 else if l[2] then 2 else if l[3] then 3 else 0
  }

  function Highest(l: Lanes): (h: nat)
    ensures Lowest(l) <= h < 4
  {
    if l[3] then 3 else if l[2] then 2 else if l[1] then 1 else 0
  }

  // The bytes a completer counts from Length and byte enables, as section 2.3.1.1 of the PCI
  // Express Base Specification has it; one for a request with no lane enabled.
  function ByteCount(t: ReadTlp): (n: nat)
    ensures n > 0
  {
    if Asks(t) == 1 then Highest(t.firstBe) - Lowest(t.firstBe) + 1
    else 4 * Asks(t) - Lowest(t.firstBe) - (3 - Highest(t.lastBe))
  }

  // Is byte `p` of the dwords of a request, counted from the first dword, enabled?
  predicate Enabled(t: ReadTlp, p: nat) {
    if p < 4 then t.firstBe[p]
    else if p / 4 == Asks(t) - 1 then t.lastBe[p % 4]
    else p / 4 < Asks(t)
  }

  // The bytes from the request's address on: those the engine counts, or a whole page.
  function Asked(t: ReadTlp): nat {
    if t.bytes == 0 then 0x1000 else t.bytes
  }

  // The header asks for exactly these bytes.
  ghost predicate Exact(t: ReadTlp) {
    && ByteCount(t) == Asked(t) && t.addr.byte + Asked(t) <= 4 * Asks(t)
    && forall p :: 0 <= p < 4 * Asks(t) ==> (Enabled(t, p) <==> t.addr.byte <= p < t.addr.byte + Asked(t))
  }

  lemma LastLane(byte: nat, bytes: nat)
    requires byte < 4 && 0 < bytes
    ensures (byte + bytes % 4 - 1) % 4 == (byte + bytes - 1) % 4
  {
    var q, r := bytes / 4, bytes % 4;
    var x := byte + r - 1;
    DivMod(x + 4 * q, 4, q + x / 4, x % 4);
  }

  // The byte enables of a non-empty size.
  lemma EnablesOfSize(a: Addr, ramAddr: nat, s: TlpSize, p: nat)
    requires a.Valid() && 0 < s.tlpCount && s.dwords == (s.tlpCount + a.byte + 3) / 4 <= 0x400 && p < 4 * s.dwords
    ensures var t := RequestFor(a, ramAddr, false, s);
      && Asks(t) == s.dwords && (Enabled(t, p) <==> a.byte <= p < a.byte + s.tlpCount)
  {
    var end := a.byte + s.tlpCount - 1;
    LastLane(a.byte, s.tlpCount);
    DivMod(end + 4, 4, end / 4 + 1, end % 4);
    assert p == 4 * (p / 4) + p % 4;
  }

  // As section 2.2.5 of the PCI Express Base Specification has it: a request of one dword has no lane
  // enabled in its last byte enables, and a longer one has some in both.
  lemma EnablesAreLegal(a: Addr, ramAddr: nat, zeroLen: bool, s: TlpSize)
    requires a.Valid() && s.dwords <= 0x400 && (zeroLen ==> s.dwords == 1)
    ensures var t := RequestFor(a, ramAddr, zeroLen, s);
      && (Asks(t) == 1 ==> t.lastBe == NO_LANES)
      && (Asks(t) > 1 ==> true in t.firstBe && true in t.lastBe)
  {
    var t := RequestFor(a, ramAddr, zeroLen, s);
    if s.dwords != 1 {
      assert t.firstBe[3] && t.lastBe[0];
    }
  }

  lemma CountOfSize(a: Addr, ramAddr: nat, s: TlpSize)
    requires a.Valid() && 0 < s.tlpCount && s.dwords == (s.tlpCount + a.byte + 3) / 4 <= 0x400
    ensures ByteCount(RequestFor(a, ramAddr, false, s)) == s.tlpCount
  {
    var end := a.byte + s.tlpCount - 1;
    DivMod(end + 4, 4, end / 4 + 1, end % 4);
    LanesOfSize(a, s.tlpCount);
    if end >= 4 {
      assert s.dwords > 1;
    }
    hide FirstLanes, LastLanes, Both, Lowest, Highest;
  }

  lemma LanesOfSize(a: Addr, bytes: nat)
    requires a.Valid() && 0 < bytes
    ensures var end := a.byte + bytes - 1;
      && Lowest(FirstLanes(a)) == a.byte && Highest(LastLanes(a, bytes)) == end % 4
      && (end < 4 ==>
            var both := Both(FirstLanes(a), LastLanes(a, bytes)); Lowest(both) == a.byte && Highest(both) == end)
  {
    LastLane(a.byte, bytes);
    if a.byte + bytes - 1 < 4 {
      DivSmall(a.byte + bytes - 1, 4);
    }
  }

  // A size of at most a page, as its header puts it on the wire.
  lemma HeaderIsExact(a: Addr, ramAddr: nat, s: TlpSize)
    requires a.Valid() && 0 < s.tlpCount && a.InPage() + s.tlpCount <= 0x1000
    requires s.dwords == (s.tlpCount + a.byte + 3) / 4
    ensures var t := RequestFor(a, ramAddr, false, s); Exact(t) && Asks(t) == s.dwords
  {
    var t := RequestFor(a, ramAddr, false, s);
    CountOfSize(a, ramAddr, s);
    EnablesOfSize(a, ramAddr, s, 0);
    hide Enabled, ByteCount, Asks, FirstLanes, LastLanes, Both;
    forall p: nat | p < 4 * Asks(t) ensures Enabled(t, p) <==> a.byte <= p < a.byte + s.tlpCount {
      EnablesOfSize(a, ramAddr, s, p);
    }
  }

  // A size of nothing goes out with Length zero and every lane enabled: it asks for the page.
  lemma NothingAsksForPage(a: Addr, ramAddr: nat, s: TlpSize)
    requires a.Valid() && a.InPage() == 0 && s.tlpCount == 0 && s.dwords == 0
    ensures var t := RequestFor(a, ramAddr, false, s);
      Exact(t) && t.length == 0 && Asks(t) == 0x400 && ByteCount(t) == 0x1000
      && t.firstBe == t.lastBe == [true, true, true, true]
  {
  }

  // The positions a descriptor leads to: some bytes are left, or the last page is behind.
  predicate Reached(a: Addr, count: nat) {
    count > 0 || a.InPage() == 0
  }

  // Wherever a descriptor leads to, the header asks for exactly the bytes the engine counts,
  // and for a page where it counts none.
  lemma EnablesAreExact(a: Addr, ramAddr: nat, count: nat, maxDw: nat, rcb128: bool)
    requires a.Valid() && count < LEN_SPACE && IsMaxDwords(maxDw) && Reached(a, count)
    ensures var s := SizeTlp(a, count, maxDw, rcb128); var t := RequestFor(a, ramAddr, false, s);
      Exact(t) && (count > 0 ==> Asks(t) == s.dwords)
  {
    hide SizeTlp, RequestFor, Exact, Asks;
    SizeMatchesReference(a, count, maxDw, rcb128);
    if count > 0 {
      SizeIsSound(a, count, maxDw, rcb128);
      HeaderIsExact(a, ramAddr, SizeTlp(a, count, maxDw, rcb128));
    } else {
      SizeOfNothing(a, maxDw, rcb128);
      NothingAsksForPage(a, ramAddr, SizeTlp(a, count, maxDw, rcb128));
    }
  }

  // A zero-length operation's request counts as one byte.
  lemma ZeroLengthCounts(a: Addr, ramAddr: nat, maxDw: nat, rcb128: bool)
    requires a.Valid() && IsMaxDwords(maxDw)
    ensures var t := RequestFor(a, ramAddr, true, SizeTlp(a, 1, maxDw, rcb128));
      && t.bytes == 1 && ByteCount(t) == Asked(t) && t.last && t.length == 1
      && t.firstBe == t.lastBe == NO_LANES
  {
    hide SizeTlp;
    SizeMatchesReference(a, 1, maxDw, rcb128);
    SizeIsSound(a, 1, maxDw, rcb128);
  }

  /* The whole stream. */

  function Segments(a: Addr, ramAddr: nat, count: nat, maxDw: nat, rcb128: bool): (segs: seq<ReadTlp>)
    requires a.Valid() && count < LEN_SPACE && IsMaxDwords(maxDw)
    ensures Stream(segs, a, ramAddr, count, maxDw)
    decreases count
  {
    hide SizeTlp, RequestFor, StartsBlock, Exact, Asks, Oversized, WrapAddr;
    RequestFollows(a, ramAddr, count, maxDw, rcb128);
    var t := RequestFor(a, ramAddr, false, SizeTlp(a, count, maxDw, rcb128));
    if t.last then [t]
    else [t] + Segments(t.next, ramAddr + t.bytes, count - t.bytes, maxDw, rcb128)
  }

  // At the beginning of a 128-byte block.
  predicate StartsBlock(a: Addr) {
    a.byte == 0 && a.InBlock() == 0
  }

  // What a request for the given position is known to satisfy.
  ghost predicate Follows(t: ReadTlp, a: Addr, ramAddr: nat, count: nat, maxDw: nat) {
    && a.Valid() && t.addr == a && t.ramAddr == ramAddr
    && t.bytes <= count && a.InPage() + t.bytes <= 0x1000
    && (Reached(a, count) ==> Exact(t) && (count == 0 ==> t.length == 0))
    && (count == 0 ==> t.last)
    && (count > 0 ==>
          && t.bytes > 0
          && (t.last <==> t.bytes == count && !MissesLast(a, count, maxDw))
          && (Asks(t) <= maxDw <==> !Oversized(a, count, maxDw)))
    && (!t.last ==>
          && t.next.Valid() && StartsBlock(t.next)
          && t.next.Value() == WrapAddr(a.Value() + t.bytes)
          && (maxDw == 1024 ==> t.next.InPage() == 0 && a.InPage() + t.bytes == 0x1000)
          && Reached(t.next, count - t.bytes))
  }

  lemma RequestFollows(a: Addr, ramAddr: nat, count: nat, maxDw: nat, rcb128: bool)
    requires a.Valid() && count < LEN_SPACE && IsMaxDwords(maxDw)
    ensures Follows(RequestFor(a, ramAddr, false, SizeTlp(a, count, maxDw, rcb128)), a, ramAddr, count, maxDw)
  {
    hide SizeTlp, Exact, Asks, FirstLanes, LastLanes, Both;
    var s := SizeTlp(a, count, maxDw, rcb128);
    SizeMatchesReference(a, count, maxDw, rcb128);
    if Reached(a, count) {
      EnablesAreExact(a, ramAddr, count, maxDw, rcb128);
    }
    if count == 0 {
      SizeOfNothing(a, maxDw, rcb128);
    } else {
      SizeIsSound(a, count, maxDw, rcb128);
    }
    if !s.last {
      SplitsAreAligned(a, count, maxDw, rcb128);
    }
  }

  // The stream is the first request and the stream from where it stops.
  lemma SegmentsStep(a: Addr, ramAddr: nat, count: nat, maxDw: nat, rcb128: bool)
    requires a.Valid() && count < LEN_SPACE && IsMaxDwords(maxDw)
    ensures var t := RequestFor(a, ramAddr, false, SizeTlp(a, count, maxDw, rcb128));
      && t.bytes <= count && (!t.last ==> t.next.Valid())
      && Segments(a, ramAddr, count, maxDw, rcb128)
      == [t] + if t.last then [] else Segments(t.next, ramAddr + t.bytes, count - t.bytes, maxDw, rcb128)
  {
    hide SizeTlp, RequestFor, Stream;
    RequestFollows(a, ramAddr, count, maxDw, rcb128);
  }

  // Each request follows the one before it, up to the one marked last.
  ghost predicate Stream(segs: seq<ReadTlp>, a: Addr, ramAddr: nat, count: nat, maxDw: nat)
    decreases |segs|
  {
    && segs != []
    && Follows(segs[0], a, ramAddr, count, maxDw)
    && if segs[0].last then |segs| == 1
       else Stream(segs[1..], segs[0].next, ramAddr + segs[0].bytes, count - segs[0].bytes, maxDw)
  }

  // Bytes asked for before request `i`.
  function Offset(segs: seq<ReadTlp>, i: nat): nat
    requires i <= |segs|
  {
    if i == 0 then 0 else segs[0].bytes + Offset(segs[1..], i - 1)
  }

  ghost predicate Tiles(segs: seq<ReadTlp>, a: Addr, ramAddr: nat, count: nat) {
    && Offset(segs, |segs|) == count
    && (forall i :: 0 <= i < |segs| ==>
          && segs[i].addr.Valid()
          && segs[i].addr.Value() == WrapAddr(a.Value() + Offset(segs, i))
          && segs[i].ramAddr == ramAddr + Offset(segs, i)
          && segs[i].addr.InPage() + segs[i].bytes <= 0x1000
          && (segs[i].last <==> i == |segs| - 1))
  }

  lemma OffsetMonotone(segs: seq<ReadTlp>, i: nat, j: nat)
    requires i <= j <= |segs|
    ensures Offset(segs, i) <= Offset(segs, j)
  {
    if i > 0 {
      OffsetMonotone(segs[1..], i - 1, j - 1);
    }
  }

  lemma {:induction false} OffsetNext(segs: seq<ReadTlp>, i: nat)
    requires i < |segs|
    ensures Offset(segs, i + 1) == Offset(segs, i) + segs[i].bytes
  {
    if i > 0 {
      OffsetNext(segs[1..], i - 1);
    }
  }

  // The ranges the engine counts for the requests of a descriptor tile its bytes in order, in
  // the host's memory and in the card's, and stay inside 4 KB pages; only the final request is
  // marked last.
  lemma SegmentsTile(a: Addr, ramAddr: nat, count: nat, maxDw: nat, rcb128: bool)
    requires a.Valid() && count < LEN_SPACE && IsMaxDwords(maxDw)
    ensures Tiles(Segments(a, ramAddr, count, maxDw, rcb128), a, ramAddr, count)
  {
    StreamTiles(Segments(a, ramAddr, count, maxDw, rcb128), a, ramAddr, count, maxDw);
  }

  lemma {:induction false} StreamTiles(segs: seq<ReadTlp>, a: Addr, ramAddr: nat, count: nat, maxDw: nat)
    requires count < LEN_SPACE && Stream(segs, a, ramAddr, count, maxDw)
    ensures Tiles(segs, a, ramAddr, count)
    decreases |segs|
  {
    hide StartsBlock, Exact, Asks, Oversized, Reached;
    var t := segs[0];
    if t.last {
      assert Offset(segs, 1) == t.bytes == count;
    } else {
      StreamTiles(segs[1..], t.next, ramAddr + t.bytes, count - t.bytes, maxDw);
      ConsTiles(segs, count);
    }
  }

  lemma ConsTiles(segs: seq<ReadTlp>, count: nat)
    requires |segs| > 1 && count < LEN_SPACE && segs[0].bytes <= count
    requires var t := segs[0];
      && t.addr.Valid() && !t.last && t.addr.InPage() + t.bytes <= 0x1000
      && t.next.Value() == WrapAddr(t.addr.Value() + t.bytes)
      && Tiles(segs[1..], t.next, t.ramAddr + t.bytes, count - t.bytes)
    ensures Tiles(segs, segs[0].addr, segs[0].ramAddr, count)
  {
    var t, rest := segs[0], segs[1..];
    forall i | 0 < i < |segs|
      ensures Offset(segs, i) == t.bytes + Offset(rest, i - 1) && segs[i] == rest[i - 1]
      ensures segs[i].addr.Value() == WrapAddr(t.addr.Value() + Offset(segs, i))
    {
      OffsetMonotone(rest, i - 1, |rest|);
      WrapTwice(t.addr.Value(), t.bytes, Offset(rest, i - 1));
    }
  }

  lemma WrapTwice(v: nat, m: nat, n: nat)
    requires v < PAGES * 0x1000 && m + n < LEN_SPACE
    ensures WrapAddr(WrapAddr(v + m) + n) == WrapAddr(v + m + n)
  {
  }

  // So every byte of the descriptor is in one request and in no other.
  lemma {:induction false} EveryByteOnce(segs: seq<ReadTlp>, k: nat) returns (i: nat)
    requires k < Offset(segs, |segs|)
    ensures i < |segs| && Offset(segs, i) <= k < Offset(segs, i) + segs[i].bytes
    ensures forall j :: 0 <= j < |segs| && Offset(segs, j) <= k < Offset(segs, j) + segs[j].bytes ==> j == i
  {
    i := 0;
    while k >= Offset(segs, i + 1)
      invariant i < |segs| && Offset(segs, i) <= k
      decreases |segs| - i
    {
      i := i + 1;
    }
    OffsetNext(segs, i);
    forall j | 0 <= j < |segs| && Offset(segs, j) <= k < Offset(segs, j) + segs[j].bytes ensures j == i {
      OffsetNext(segs, j);
      if j < i {
        OffsetMonotone(segs, j + 1, i);
      } else if i < j {
        OffsetMonotone(segs, i + 1, j);
      }
    }
  }

  /* What the requests ask for together, and the two exceptions. */

  // Host byte `x` is in the dwords of the request and enabled.
  ghost predicate AsksFor(t: ReadTlp, x: nat) {
    var first := t.addr.Value() - t.addr.byte;
    first <= x < first + 4 * Asks(t) && Enabled(t, x - first)
  }

  function HostByte(a: Addr, k: nat): nat {
    WrapAddr(a.Value() + k)
  }

  ghost predicate InDescriptor(a: Addr, count: nat, x: nat) {
    exists k :: 0 <= k < count && HostByte(a, k) == x
  }

  ghost predicate AskedBySome(segs: seq<ReadTlp>, x: nat) {
    exists t :: t in segs && AsksFor(t, x)
  }

  // The requests ask for the bytes of the descriptor and for no other byte of the host.
  ghost predicate AskExactly(segs: seq<ReadTlp>, a: Addr, count: nat) {
    forall x: nat :: AskedBySome(segs, x) <==> InDescriptor(a, count, x)
  }

  lemma {:induction false} AllExact(segs: seq<ReadTlp>, a: Addr, ramAddr: nat, count: nat, maxDw: nat)
    requires count < LEN_SPACE && Stream(segs, a, ramAddr, count, maxDw) && Reached(a, count)
    ensures forall t :: t in segs ==> Exact(t)
    decreases |segs|
  {
    hide Exact, Reached;
    var t := segs[0];
    if t.last {
      assert segs == [t];
    } else {
      AllExact(segs[1..], t.next, ramAddr + t.bytes, count - t.bytes, maxDw);
      assert segs == [t] + segs[1..];
    }
  }

  lemma AskedRange(t: ReadTlp, x: nat)
    requires t.addr.Valid() && Exact(t)
    ensures AsksFor(t, x) <==> t.addr.Value() <= x < t.addr.Value() + Asked(t)
  {
    hide Enabled, ByteCount;
    var p := x - (t.addr.Value() - t.addr.byte);
    if 0 <= p < 4 * Asks(t) {
      assert Enabled(t, p) <==> t.addr.byte <= p < t.addr.byte + Asked(t);
    }
  }

  // A request's own byte `j` is byte `Offset + j` of the descriptor.
  lemma ByteOfRequest(segs: seq<ReadTlp>, a: Addr, ramAddr: nat, count: nat, i: nat, j: nat)
    requires a.Valid() && count < LEN_SPACE && Tiles(segs, a, ramAddr, count) && i < |segs| && j < segs[i].bytes
    ensures Offset(segs, i) + j < count && HostByte(a, Offset(segs, i) + j) == segs[i].addr.Value() + j
  {
    hide Offset, WrapAddr, Addr.InPage, Addr.Value;
    OffsetNext(segs, i);
    OffsetMonotone(segs, i + 1, |segs|);
    assert a.Value() < PAGES * 0x1000 by { ValueInSpace(a); }
    WrapInPage(segs[i].addr, a.Value() + Offset(segs, i), j);
  }

  lemma ValueInSpace(a: Addr)
    requires a.Valid()
    ensures a.Value() < PAGES * 0x1000
  {
  }

  // Counting on inside the page of an address does not wrap.
  lemma WrapInPage(b: Addr, v: nat, j: nat)
    requires b.Valid() && b.Value() == WrapAddr(v) && b.InPage() + j < 0x1000 && v + j < 2 * PAGES * 0x1000
    ensures WrapAddr(v + j) == b.Value() + j
  {
  }

  lemma AskedIsIn(segs: seq<ReadTlp>, a: Addr, ramAddr: nat, count: nat, x: nat)
    requires a.Valid() && count < LEN_SPACE && Tiles(segs, a, ramAddr, count)
    requires forall t :: t in segs ==> Exact(t) && t.bytes > 0
    requires AskedBySome(segs, x)
    ensures InDescriptor(a, count, x)
  {
    hide Exact, AsksFor;
    var t :| t in segs && AsksFor(t, x);
    var i :| 0 <= i < |segs| && segs[i] == t;
    AskedRange(t, x);
    ByteOfRequest(segs, a, ramAddr, count, i, x - t.addr.Value());
  }

  lemma InIsAsked(segs: seq<ReadTlp>, a: Addr, ramAddr: nat, count: nat, x: nat)
    requires a.Valid() && count < LEN_SPACE && Tiles(segs, a, ramAddr, count)
    requires forall t :: t in segs ==> Exact(t)
    requires InDescriptor(a, count, x)
    ensures AskedBySome(segs, x)
  {
    hide Exact, AsksFor, HostByte;
    var k :| 0 <= k < count && HostByte(a, k) == x;
    var i := EveryByteOnce(segs, k);
    ByteOfRequest(segs, a, ramAddr, count, i, k - Offset(segs, i));
    AskedRange(segs[i], x);
  }

  // The first byte an empty last request asks for is the one behind the descriptor.
  lemma AsksBehind(segs: seq<ReadTlp>, a: Addr, ramAddr: nat, count: nat)
    requires a.Valid() && count < LEN_SPACE && Tiles(segs, a, ramAddr, count)
    requires segs != [] && segs[|segs| - 1].bytes == 0 && Exact(segs[|segs| - 1])
    ensures segs[|segs| - 1].addr.Value() == HostByte(a, count)
    ensures AskedBySome(segs, HostByte(a, count)) && !InDescriptor(a, count, HostByte(a, count))
  {
    var n := |segs| - 1;
    OffsetNext(segs, n);
    AskedRange(segs[n], HostByte(a, count));
    hide Exact, AsksFor;
  }

  ghost predicate AsksForItsBytes(a: Addr, ramAddr: nat, count: nat, maxDw: nat, rcb128: bool)
    requires a.Valid() && count < LEN_SPACE && IsMaxDwords(maxDw)
  {
    AskExactly(Segments(a, ramAddr, count, maxDw, rcb128), a, count)
  }

  lemma Nonempty(segs: seq<ReadTlp>, a: Addr, ramAddr: nat, count: nat, maxDw: nat)
    requires count < LEN_SPACE && Stream(segs, a, ramAddr, count, maxDw)
    ensures segs != []
  {
  }

  // The requests of a descriptor ask for exactly its bytes, unless it ends on a full page.
  lemma AsksExactly(a: Addr, ramAddr: nat, count: nat, maxDw: nat, rcb128: bool)
    requires a.Valid() && 0 < count < LEN_SPACE && IsMaxDwords(maxDw)
    ensures AsksForItsBytes(a, ramAddr, count, maxDw, rcb128) <==> !EndsOnFullPage(a, count, maxDw)
  {
    hide Segments, Stream, Exact, Tiles, InDescriptor, EndsOnFullPage, LastPageBefore;
    var segs := Segments(a, ramAddr, count, maxDw, rcb128);
    SegmentsTile(a, ramAddr, count, maxDw, rcb128);
    EmptyRequest(a, ramAddr, count, maxDw, rcb128);
    AllExact(segs, a, ramAddr, count, maxDw);
    Nonempty(segs, a, ramAddr, count, maxDw);
    assert forall i :: 0 <= i < |segs| - 1 ==> segs[i].bytes > 0;
    if EndsOnFullPage(a, count, maxDw) {
      AsksBehind(segs, a, ramAddr, count);
    } else {
      hide AskedBySome;
      forall x: nat ensures AskedBySome(segs, x) <==> InDescriptor(a, count, x) {
        if AskedBySome(segs, x) {
          AskedIsIn(segs, a, ramAddr, count, x);
        }
        if InDescriptor(a, count, x) {
          InIsAsked(segs, a, ramAddr, count, x);
        }
      }
    }
  }

  // The descriptor ends on a page boundary and covers its last page, with the largest
  // request size.
  predicate EndsOnFullPage(a: Addr, count: nat, maxDw: nat) {
    maxDw == 1024 && count >= 0x1000 && OnPageBoundary(a.InPage() + count)
  }

  predicate OnPageBoundary(end: nat) {
    end % 0x1000 == 0
  }

  // For those descriptors, and no others, one more request follows the last bytes.
  lemma EmptyRequest(a: Addr, ramAddr: nat, count: nat, maxDw: nat, rcb128: bool)
    requires a.Valid() && 0 < count < LEN_SPACE && IsMaxDwords(maxDw)
    ensures var segs := Segments(a, ramAddr, count, maxDw, rcb128);
      && (forall i :: 0 <= i < |segs| - 1 ==> segs[i].bytes > 0)
      && (segs[|segs| - 1].bytes == 0 <==> EndsOnFullPage(a, count, maxDw))
      && (EndsOnFullPage(a, count, maxDw) ==> LastPageBefore(segs))
  {
    hide Segments, Stream, EndsOnFullPage, LastPageBefore;
    Nonempty(Segments(a, ramAddr, count, maxDw, rcb128), a, ramAddr, count, maxDw);
    StreamEmptyRequest(Segments(a, ramAddr, count, maxDw, rcb128), a, ramAddr, count, maxDw);
  }

  // The request before the last one is for one whole page.
  ghost predicate LastPageBefore(segs: seq<ReadTlp>) {
    |segs| >= 2 && segs[|segs| - 2].bytes == 0x1000 && segs[|segs| - 2].addr.InPage() == 0
  }

  lemma {:induction false} StreamEmptyRequest(segs: seq<ReadTlp>, a: Addr, ramAddr: nat, count: nat, maxDw: nat)
    requires 0 < count < LEN_SPACE && Stream(segs, a, ramAddr, count, maxDw)
    ensures forall i :: 0 <= i < |segs| - 1 ==> segs[i].bytes > 0
    ensures segs[|segs| - 1].bytes == 0 <==> EndsOnFullPage(a, count, maxDw)
    ensures EndsOnFullPage(a, count, maxDw) ==> LastPageBefore(segs)
    decreases |segs|
  {
    hide OnPageBoundary, Exact, Asks, StartsBlock, Oversized, Reached, WrapAddr, Addr.Value;
    var t := segs[0];
    PagesLeft(a.InPage() + count);
    if t.last {
      assert maxDw == 1024 ==> a.InPage() + count <= 0x1000;
    } else if count > t.bytes {
      StreamEmptyRequest(segs[1..], t.next, ramAddr + t.bytes, count - t.bytes, maxDw);
    }
  }

  lemma PagesLeft(end: nat)
    ensures end >= 0x1000 ==> (OnPageBoundary(end) <==> OnPageBoundary(end - 0x1000))
    ensures end < 0x1000 ==> (OnPageBoundary(end) <==> end == 0)
    ensures 0x1000 <= end < 0x2000 ==> (OnPageBoundary(end) <==> end == 0x1000)
  {
    if end >= 0x1000 {
      DivMod(end, 0x1000, (end - 0x1000) / 0x1000 + 1, (end - 0x1000) % 0x1000);
    }
  }

  // What that request is on the wire: a read of the whole host page behind the descriptor. Its
  // table entry ends where the descriptor's RAM range ends, which is where the entry of the
  // request before it, for the descriptor's last page, ends.
  lemma ExtraRequest(a: Addr, ramAddr: nat, count: nat, maxDw: nat, rcb128: bool)
    requires a.Valid() && 0 < count < LEN_SPACE && IsMaxDwords(maxDw) && EndsOnFullPage(a, count, maxDw)
    ensures var segs := Segments(a, ramAddr, count, maxDw, rcb128); var n := |segs| - 1;
      && LastPageBefore(segs)
      && segs[n].length == 0 && ByteCount(segs[n]) == 0x1000
      && segs[n].addr.InPage() == 0 && segs[n].addr.Value() == HostByte(a, count)
      && segs[n].ramAddr + segs[n].bytes == ramAddr + count == segs[n - 1].ramAddr + segs[n - 1].bytes
  {
    hide Segments, Stream, Exact, Tiles, EndsOnFullPage, ByteCount;
    var segs := Segments(a, ramAddr, count, maxDw, rcb128);
    SegmentsTile(a, ramAddr, count, maxDw, rcb128);
    EmptyRequest(a, ramAddr, count, maxDw, rcb128);
    AllExact(segs, a, ramAddr, count, maxDw);
    Nonempty(segs, a, ramAddr, count, maxDw);
    LastOfStream(segs, a, ramAddr, count, maxDw);
    LastPlaces(segs, a, ramAddr, count);
    AsksBehind(segs, a, ramAddr, count);
    assert Exact(segs[|segs| - 1]);
    ExactCounts(segs[|segs| - 1]);
  }

  lemma ExactCounts(t: ReadTlp)
    requires Exact(t)
    ensures ByteCount(t) == Asked(t)
  {
  }

  lemma LastPlaces(segs: seq<ReadTlp>, a: Addr, ramAddr: nat, count: nat)
    requires Tiles(segs, a, ramAddr, count) && |segs| >= 2 && segs[|segs| - 1].bytes == 0
    ensures segs[|segs| - 1].ramAddr == ramAddr + count == segs[|segs| - 2].ramAddr + segs[|segs| - 2].bytes
  {
    OffsetNext(segs, |segs| - 1);
    OffsetNext(segs, |segs| - 2);
  }

  // No credits are recorded for it, where a page the engine counts records what a page returns.
  lemma ExtraCredits(a: Addr, rcb128: bool)
    requires a.Valid() && a.InPage() == 0
    ensures var none, page := SizeTlp(a, 0, 1024, rcb128), SizeTlp(a, 0x1000, 1024, rcb128);
      && none.cplh == none.cpld == 0
      && page.cplh == (if rcb128 then 32 else 64) && page.cpld == 256
  {
    SizeOfNothing(a, 1024, rcb128);
    PageSize(a, rcb128);
    hide SizeTlp;
  }

  lemma PageSize(a: Addr, rcb128: bool)
    requires a.Valid() && a.InPage() == 0
    ensures var page := SizeTlp(a, 0x1000, 1024, rcb128); page.cplh == (if rcb128 then 32 else 64) && page.cpld == 256
  {
    SizeByBranch(a, 0x1000, 1024, rcb128);
  }

  lemma {:induction false} LastOfStream(segs: seq<ReadTlp>, a: Addr, ramAddr: nat, count: nat, maxDw: nat)
    requires 0 < count < LEN_SPACE && Stream(segs, a, ramAddr, count, maxDw) && segs[|segs| - 1].bytes == 0
    ensures segs[|segs| - 1].length == 0 && segs[|segs| - 1].addr.InPage() == 0
    decreases |segs|
  {
    hide Exact, Asks;
    var t := segs[0];
    if !t.last && count > t.bytes {
      LastOfStream(segs[1..], t.next, ramAddr + t.bytes, count - t.bytes, maxDw);
    }
  }

  // Only the first request can outgrow the maximum request size, and it does exactly when the
  // 16-bit comparison wraps and the page holds more than that.
  lemma RequestSizes(a: Addr, ramAddr: nat, count: nat, maxDw: nat, rcb128: bool)
    requires a.Valid() && 0 < count < LEN_SPACE && IsMaxDwords(maxDw)
    ensures var segs := Segments(a, ramAddr, count, maxDw, rcb128);
      && (Asks(segs[0]) <= maxDw <==> !Oversized(a, count, maxDw))
      && (forall i :: 0 < i < |segs| ==> Asks(segs[i]) <= maxDw)
  {
    StreamSizes(Segments(a, ramAddr, count, maxDw, rcb128), a, ramAddr, count, maxDw);
  }

  lemma {:induction false} StreamSizes(segs: seq<ReadTlp>, a: Addr, ramAddr: nat, count: nat, maxDw: nat)
    requires 0 < count < LEN_SPACE && Stream(segs, a, ramAddr, count, maxDw)
    ensures Asks(segs[0]) <= maxDw <==> !Oversized(a, count, maxDw)
    ensures forall i :: 0 < i < |segs| ==> Asks(segs[i]) <= maxDw
    decreases |segs|
  {
    hide Exact, WrapAddr, Addr.Value, Addr.InBlock;
    var t := segs[0];
    if !t.last && count > t.bytes {
      StreamSizes(segs[1..], t.next, ramAddr + t.bytes, count - t.bytes, maxDw);
    }
  }

  /* One input for each exception. */

  lemma OnePageIsFull(a: Addr, count: nat, maxDw: nat)
    requires a.InPage() == 0 && count == 0x1000 && maxDw == 1024
    ensures EndsOnFullPage(a, count, maxDw)
  {
  }

  lemma OnePageFrom(a: Addr, count: nat)
    requires a.Valid() && a.Value() == 0 && count == 0x1000
    ensures !AsksForItsBytes(a, 0, count, 1024, false)
  {
    OnePageIsFull(a, count, 1024);
    hide *;
    AsksExactly(a, 0, count, 1024, false);
  }

  // One page from host address 0, with the largest request size.
  lemma OnePageAsksMore()
    ensures !AsksForItsBytes(Addr(0, 0, 0, 0, 0, 0), 0, 0x1000, 1024, false)
  {
    OnePageFrom(Addr(0, 0, 0, 0, 0, 0), 0x1000);
    hide *;
  }

  // 65533 bytes from the last byte of a dword, with requests of at most 128 bytes: the first
  // one asks for 4 KB.
  lemma WrappedComparison()
    ensures var segs := Segments(Addr(0, 0, 0, 0, 0, 3), 0, 65533, 32, false); segs != [] && Asks(segs[0]) == 0x400
  {
    hide Segments, Stream;
    var a := Addr(0, 0, 0, 0, 0, 3);
    SegmentsStep(a, 0, 65533, 32, false);
  }
}
