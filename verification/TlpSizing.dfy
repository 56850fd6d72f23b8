/** How a read descriptor is cut into read request TLPs. */
module TlpSizing {
  import opened Arith

  const PAGES: nat := 0x10_0000_0000_0000  // 4 KB pages in the 64-bit PCIe address space
  const LEN_SPACE: nat := 0x1_0000         // 16-bit descriptor lengths

  // An address by the bit slices the engine computes with: page [63:12], 128-byte block [11:7],
  // 64-byte half [6], 16-byte credit unit [5:4], dword [3:2], byte [1:0].
  datatype Addr = Addr(page: nat, block: nat, half: nat, unit: nat, dword: nat, byte: nat) {

    predicate Valid() {
      page < PAGES && block < 32 && half < 2 && unit < 4 && dword < 4 && byte < 4
    }

    function InHalf(): nat { 16 * unit + 4 * dword + byte }              // [5:0]

    function InBlock(): nat { 64 * half + InHalf() }                     // [6:0]

    function InPage(): nat { 128 * block + InBlock() }                   // [11:0]

    function Dwords(): nat { 32 * block + 16 * half + 4 * unit + dword } // [11:2]

    function Value(): nat { 0x1000 * page + InPage() }
  }

  // An address computed with one carry out of the address space.
  function WrapAddr(v: nat): nat {
    if v >= PAGES * 0x1000 then v - PAGES * 0x1000 else v
  }

  // Maximum read request size in dwords for the 3-bit configuration field.
  function MaxReadDwords(field: nat): (dw: nat)
    ensures IsMaxDwords(dw) && (dw == 1024 <==> field >= 5)
    ensures dw == 32 * TwoTo(if field < 5 then field else 5)
  {
    assert TwoTo(2) == 4 && TwoTo(4) == 16;
    match field
    case 0 => 32
    case 1 => 64
    case 2 => 128
    case 3 => 256
    case 4 => 512
    case _ => 1024
  }

  function TwoTo(n: nat): (power: nat) {
    if n == 0 then 1 else 2 * TwoTo(n - 1)
  }

  predicate IsMaxDwords(dw: nat) {
    dw in {32, 64, 128, 256, 512, 1024}
  }

  // The registers computed for the next TLP; `cplh` and `cpld` are completion header and
  // data credits.
  datatype TlpSize = TlpSize(tlpCount: nat, dwords: nat, cplh: nat, cpld: nat, last: bool, next: Addr)

  // Up to the next 4 KB boundary.
  function To4K(a: Addr, rcb128: bool, last: bool): TlpSize
    requires a.Valid()
  {
    TlpSize(0x1000 - a.InPage(), 0x400 - a.Dwords(),
            if rcb128 then 0x20 - a.block else 0x40 - (2 * a.block + a.half),
            0x100 - (8 * a.block + 4 * a.half + a.unit), last,
            Addr(if a.page + 1 == PAGES then 0 else a.page + 1, 0, 0, 0, 0, 0))
  }

  // Everything that is left. The results are cut to the width of their registers.
  function Remainder(a: Addr, count: nat, rcb128: bool): TlpSize {
    TlpSize(count % 0x2000, (count + a.byte + 3) / 4 % 0x800,
            (if rcb128 then (a.InBlock() + count + 127) / 128 else (a.InHalf() + count + 63) / 64) % 0x80,
            (count + a.byte + 15) / 16 % 0x200, true, Addr(a.page, 0, 0, 0, 0, 0))
  }

  // A full-size request, shortened to end on a 128-byte boundary. A request this size that
  // stays inside its page advances the block field without a carry out of it.
  function FullSize(a: Addr, maxDw: nat, rcb128: bool): TlpSize
    requires a.Valid() && IsMaxDwords(maxDw)
  {
    TlpSize(maxDw * 4 - a.InBlock(), maxDw - (16 * a.half + 4 * a.unit + a.dword),
            if rcb128 then maxDw / 32 else maxDw / 16 - a.half,
            maxDw / 4 - (4 * a.half + a.unit), false,
            Addr(a.page, (a.block + maxDw / 32) % 32, 0, 0, 0, 0))
  }

  // The comparison with the maximum is made on 16 bits, so it wraps for the longest
  // descriptors when they start inside a dword.
  function SizeTlp(a: Addr, count: nat, maxDw: nat, rcb128: bool): TlpSize
    requires a.Valid() && IsMaxDwords(maxDw)
  {
    if (count + a.byte) % LEN_SPACE <= maxDw * 4 then
      if a.InPage() + count % 0x1000 >= 0x1000 || count >= 0x1000 then
        To4K(a, rcb128, (a.InPage() + count % 0x1000) % 0x1000 == 0 && count < 0x1000)
      else Remainder(a, count, rcb128)
    else if a.InPage() + maxDw * 4 >= 0x1000 then To4K(a, rcb128, false)
    else FullSize(a, maxDw, rcb128)
  }

  /* The slices and roundings. */

  // Rounding up to dwords and then to units of four dwords rounds up to 16 bytes.
  lemma QuarterRoundsUp(x: nat)
    ensures ((x + 3) / 4 + 3) / 4 == (x + 15) / 16
  {
    var q, r := (x + 15) / 16, (x + 15) % 16;
    DivMod(x + 3, 4, 4 * q - 3 + r / 4, r % 4);
    DivMod(4 * q + r / 4, 4, q, r / 4);
  }

  // The slices of an address are the ones its value has.
  lemma SlicesOfValue(a: Addr)
    requires a.Valid()
    ensures var v := a.Value();
      && v / 0x1000 == a.page && v % 0x1000 == a.InPage()
      && v % 128 == a.InBlock() && v % 64 == a.InHalf() && v % 4 == a.byte
      && v % 0x1000 / 4 == a.Dwords()
  {
    DivMod(a.Value(), 0x1000, a.page, a.InPage());
    DivMod(a.Value(), 128, 32 * a.page + a.block, a.InBlock());
    DivMod(a.Value(), 64, 64 * a.page + 2 * a.block + a.half, a.InHalf());
    DivMod(a.Value(), 4, 1024 * a.page + a.Dwords(), a.byte);
    DivMod(a.InPage(), 4, a.Dwords(), a.byte);
  }

  /* The branches, read without wrap-around. */

  datatype Branch = Split(last: bool) | Rest | Full

  function BranchOf(a: Addr, count: nat, maxDw: nat): Branch
    requires a.Valid() && IsMaxDwords(maxDw)
  {
    if count + a.byte <= maxDw * 4 || count + a.byte >= LEN_SPACE then
      if a.InPage() + count >= 0x1000 then Split(a.InPage() + count == 0x1000 && count < 0x1000) else Rest
    else if a.InPage() + maxDw * 4 >= 0x1000 then Split(false)
    else Full
  }

  lemma SumOverPage(inPage: nat, count: nat)
    requires inPage < 0x1000
    ensures (inPage + count % 0x1000 >= 0x1000 || count >= 0x1000) <==> inPage + count >= 0x1000
    ensures inPage + count >= 0x1000 && count < 0x1000
      ==> ((inPage + count % 0x1000) % 0x1000 == 0 <==> inPage + count == 0x1000)
  {
    if count < 0x1000 {
      DivMod(count, 0x1000, 0, count);
      if inPage + count >= 0x1000 {
        DivMod(inPage + count, 0x1000, 1, inPage + count - 0x1000);
      }
    }
  }

  lemma SizeByBranch(a: Addr, count: nat, maxDw: nat, rcb128: bool)
    requires a.Valid() && count < LEN_SPACE && IsMaxDwords(maxDw)
    ensures SizeTlp(a, count, maxDw, rcb128) == match BranchOf(a, count, maxDw)
      case Split(last) => To4K(a, rcb128, last)
      case Rest => Remainder(a, count, rcb128)
      case Full => FullSize(a, maxDw, rcb128)
  {
    var sum := count + a.byte;
    if sum >= LEN_SPACE {
      DivMod(sum, LEN_SPACE, 1, sum - LEN_SPACE);
    } else {
      DivMod(sum, LEN_SPACE, 0, sum);
    }
    SumOverPage(a.InPage(), count);
  }

  /* The optimised sizes are the reference sizes. */

  ghost predicate MatchesReference(s: TlpSize, a: Addr, rcb128: bool) {
    && s.dwords == (s.tlpCount + a.byte + 3) / 4
    && s.cpld == (s.dwords + 3) / 4
    && s.cplh == (if rcb128 then (a.InBlock() + s.tlpCount + 127) / 128 else (a.InHalf() + s.tlpCount + 63) / 64)
    && (!s.last ==> s.next.Valid() && s.next.Value() == WrapAddr(a.Value() + s.tlpCount))
  }

  lemma To4KMatches(a: Addr, rcb128: bool, last: bool)
    requires a.Valid()
    ensures MatchesReference(To4K(a, rcb128, last), a, rcb128)
  {
    To4KCredits(a, rcb128, last);
    To4KNext(a, rcb128, last);
  }

  lemma To4KCredits(a: Addr, rcb128: bool, last: bool)
    requires a.Valid()
    ensures var s := To4K(a, rcb128, last);
      && s.dwords == (s.tlpCount + a.byte + 3) / 4
      && s.cpld == (s.dwords + 3) / 4
      && s.cplh == (if rcb128 then (a.InBlock() + s.tlpCount + 127) / 128 else (a.InHalf() + s.tlpCount + 63) / 64)
  {
    var s := To4K(a, rcb128, last);
    CeilExact(s.tlpCount + a.byte, 4, s.dwords, 0);
    CeilExact(s.dwords, 4, s.cpld, a.dword);
    CeilExact(a.InBlock() + s.tlpCount, 128, 0x20 - a.block, 0);
    CeilExact(a.InHalf() + s.tlpCount, 64, 0x40 - (2 * a.block + a.half), 0);
  }

  lemma To4KNext(a: Addr, rcb128: bool, last: bool)
    requires a.Valid()
    ensures var s := To4K(a, rcb128, last);
      s.next.Valid() && s.next.Value() == WrapAddr(a.Value() + s.tlpCount)
  {
    var next := To4K(a, rcb128, last).next;
    assert next.Value() == 0x1000 * next.page;
    assert a.Value() + To4K(a, rcb128, last).tlpCount == 0x1000 * (a.page + 1);
    assert a.page < PAGES;
  }

  // A remainder inside one page fits its registers.
  lemma RemainderFits(a: Addr, count: nat, rcb128: bool)
    requires a.Valid() && a.InPage() + count < 0x1000
    ensures var s := Remainder(a, count, rcb128);
      && s.tlpCount == count && s.dwords == (count + a.byte + 3) / 4 && s.cpld == (count + a.byte + 15) / 16
      && s.cplh == (if rcb128 then (a.InBlock() + count + 127) / 128 else (a.InHalf() + count + 63) / 64)
      && s.cplh <= 64 && s.cpld <= 256
  {
    DivMod(count, 0x2000, 0, count);
    DivMod((count + a.byte + 3) / 4, 0x800, 0, (count + a.byte + 3) / 4);
    DivMod((count + a.byte + 15) / 16, 0x200, 0, (count + a.byte + 15) / 16);
    DivMod((a.InBlock() + count + 127) / 128, 0x80, 0, (a.InBlock() + count + 127) / 128);
    DivMod((a.InHalf() + count + 63) / 64, 0x80, 0, (a.InHalf() + count + 63) / 64);
  }

  lemma RemainderMatches(a: Addr, count: nat, rcb128: bool)
    requires a.Valid() && a.InPage() + count < 0x1000
    ensures MatchesReference(Remainder(a, count, rcb128), a, rcb128)
  {
    RemainderFits(a, count, rcb128);
    QuarterRoundsUp(count + a.byte);
  }

  lemma FullSizeMatches(a: Addr, maxDw: nat, rcb128: bool)
    requires a.Valid() && IsMaxDwords(maxDw) && a.InPage() + maxDw * 4 < 0x1000
    ensures MatchesReference(FullSize(a, maxDw, rcb128), a, rcb128)
  {
    FullSizeCredits(a, maxDw, rcb128);
    FullSizeNext(a, maxDw, rcb128);
  }

  lemma FullSizeCredits(a: Addr, maxDw: nat, rcb128: bool)
    requires a.Valid() && IsMaxDwords(maxDw)
    ensures var s := FullSize(a, maxDw, rcb128);
      && s.dwords == (s.tlpCount + a.byte + 3) / 4
      && s.cpld == (s.dwords + 3) / 4
      && s.cplh == (if rcb128 then (a.InBlock() + s.tlpCount + 127) / 128 else (a.InHalf() + s.tlpCount + 63) / 64)
  {
    var s, m := FullSize(a, maxDw, rcb128), maxDw / 32;
    assert maxDw == 32 * m && maxDw / 16 == 2 * m && maxDw / 4 == 8 * m;
    CeilExact(s.tlpCount + a.byte, 4, s.dwords, 0);
    CeilExact(s.dwords, 4, s.cpld, a.dword);
    CeilExact(a.InBlock() + s.tlpCount, 128, m, 0);
    CeilExact(a.InHalf() + s.tlpCount, 64, 2 * m - a.half, 0);
  }

  lemma FullSizeNext(a: Addr, maxDw: nat, rcb128: bool)
    requires a.Valid() && IsMaxDwords(maxDw) && a.InPage() + maxDw * 4 < 0x1000
    ensures var s := FullSize(a, maxDw, rcb128);
      s.next.Valid() && s.next.Value() == WrapAddr(a.Value() + s.tlpCount)
  {
    DivMod(a.block + maxDw / 32, 32, 0, a.block + maxDw / 32);
  }

  // In every branch, for both completion boundaries.
  lemma SizeMatchesReference(a: Addr, count: nat, maxDw: nat, rcb128: bool)
    requires a.Valid() && count < LEN_SPACE && IsMaxDwords(maxDw)
    ensures MatchesReference(SizeTlp(a, count, maxDw, rcb128), a, rcb128)
  {
    SizeByBranch(a, count, maxDw, rcb128);
    match BranchOf(a, count, maxDw) {
      case Split(last) => To4KMatches(a, rcb128, last);
      case Rest => RemainderMatches(a, count, rcb128);
      case Full => FullSizeMatches(a, maxDw, rcb128);
    }
  }

  /* What one TLP may cover. */

  // The one case where the last TLP is not recognised: a whole page left, at a page boundary,
  // with the largest request size.
  predicate MissesLast(a: Addr, count: nat, maxDw: nat) {
    maxDw == 1024 && count == 0x1000 && a.InPage() == 0
  }

  // The one case where a TLP outgrows the maximum request size.
  predicate Oversized(a: Addr, count: nat, maxDw: nat) {
    count + a.byte >= LEN_SPACE && 0x400 - a.Dwords() > maxDw
  }

  ghost predicate Sound(s: TlpSize, a: Addr, count: nat, maxDw: nat) {
    && 0 < s.tlpCount <= count
    && a.InPage() + s.tlpCount <= 0x1000
    && (s.last <==> s.tlpCount == count && !MissesLast(a, count, maxDw))
    && (s.dwords <= maxDw <==> !Oversized(a, count, maxDw))
    && s.cplh <= 64 && s.cpld <= 256
  }

  lemma SplitIsSound(a: Addr, count: nat, maxDw: nat, rcb128: bool)
    requires a.Valid() && 0 < count < LEN_SPACE && IsMaxDwords(maxDw)
    requires BranchOf(a, count, maxDw).Split?
    ensures Sound(To4K(a, rcb128, BranchOf(a, count, maxDw).last), a, count, maxDw)
  {
  }

  lemma RemainderIsSound(a: Addr, count: nat, maxDw: nat, rcb128: bool)
    requires a.Valid() && 0 < count < LEN_SPACE && IsMaxDwords(maxDw)
    requires BranchOf(a, count, maxDw).Rest?
    ensures Sound(Remainder(a, count, rcb128), a, count, maxDw)
  {
    RemainderFits(a, count, rcb128);
  }

  lemma FullSizeIsSound(a: Addr, count: nat, maxDw: nat, rcb128: bool)
    requires a.Valid() && 0 < count < LEN_SPACE && IsMaxDwords(maxDw)
    requires BranchOf(a, count, maxDw).Full?
    ensures Sound(FullSize(a, maxDw, rcb128), a, count, maxDw)
  {
  }

  // Each TLP takes a non-empty part of what is left, stays inside its 4 KB page, and is
  // marked last exactly when it takes everything, one case excepted; it respects the
  // maximum request size, one case excepted.
  lemma SizeIsSound(a: Addr, count: nat, maxDw: nat, rcb128: bool)
    requires a.Valid() && 0 < count < LEN_SPACE && IsMaxDwords(maxDw)
    ensures Sound(SizeTlp(a, count, maxDw, rcb128), a, count, maxDw)
  {
    SizeByBranch(a, count, maxDw, rcb128);
    match BranchOf(a, count, maxDw) {
      case Split(_) => SplitIsSound(a, count, maxDw, rcb128);
      case Rest => RemainderIsSound(a, count, maxDw, rcb128);
      case Full => FullSizeIsSound(a, count, maxDw, rcb128);
    }
  }

  // Nothing left makes one more size, marked last; on a page boundary, the only place where
  // it comes about, its dword count and its credits are zero.
  lemma SizeOfNothing(a: Addr, maxDw: nat, rcb128: bool)
    requires a.Valid() && IsMaxDwords(maxDw)
    ensures var s := SizeTlp(a, 0, maxDw, rcb128);
      && s.last && s.tlpCount == 0
      && (a.InPage() == 0 ==> s.dwords == 0 && s.cplh == 0 && s.cpld == 0)
  {
    SizeByBranch(a, 0, maxDw, rcb128);
    RemainderFits(a, 0, rcb128);
  }

  // A request that leaves something ends on a 128-byte boundary; with the largest request
  // size, on a page boundary.
  lemma SplitsAreAligned(a: Addr, count: nat, maxDw: nat, rcb128: bool)
    requires a.Valid() && count < LEN_SPACE && IsMaxDwords(maxDw)
    requires !SizeTlp(a, count, maxDw, rcb128).last
    ensures var s := SizeTlp(a, count, maxDw, rcb128);
      && s.next.byte == 0 && s.next.InBlock() == 0
      && (maxDw == 1024 ==> s.next.InPage() == 0 && a.InPage() + s.tlpCount == 0x1000)
  {
    SizeByBranch(a, count, maxDw, rcb128);
  }

  lemma NextIsValid(a: Addr, count: nat, maxDw: nat, rcb128: bool)
    requires a.Valid() && IsMaxDwords(maxDw)
    ensures SizeTlp(a, count, maxDw, rcb128).next.Valid()
  {
  }
}
