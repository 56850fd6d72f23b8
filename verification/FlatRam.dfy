/** Reads and writes of any alignment through the two segments: one circular byte memory. */
module FlatRam {
  import opened Arith
  import opened SegmentedRam

  // An 18-bit byte address: row, segment, byte of the word.
  datatype RamAddr = RamAddr(row: nat, odd: bool, offset: nat) {
    predicate Valid() {
      row < ROWS && offset < WORD
    }

    function Value(): nat {
      2 * WORD * row + (if odd then WORD else 0) + offset
    }

    // The words of the two segments that hold the 64 bytes from here on.
    function EvenRow(): (r: nat)
      requires Valid()
      ensures r < ROWS
    {
      if odd then if row + 1 == ROWS then 0 else row + 1 else row
    }

    function OddRow(): nat {
      row
    }
  }

  datatype Banks = Banks(even: Memory, odd: Memory)

  // The memory as one array of bytes.
  function At(m: Banks, x: nat): Byte
    requires x < SPACE
  {
    var row := x / (2 * WORD);
    if x % (2 * WORD) < WORD then m.even[row][x % WORD] else m.odd[row][x % WORD]
  }

  // `k` bytes further on, around the end of the memory.
  function Along(a: RamAddr, k: nat): (x: nat)
    requires a.Valid() && k <= 2 * WORD
    ensures x < SPACE
  {
    if a.Value() + k >= SPACE then a.Value() + k - SPACE else a.Value() + k
  }

  // How far `x` lies behind an address.
  function Distance(a: RamAddr, x: nat): (k: nat)
    requires a.Valid() && x < SPACE
    ensures k < SPACE
  {
    if x >= a.Value() then x - a.Value() else x + SPACE - a.Value()
  }

  /* Reading. */

  // The two words, the one the address is in first, shifted down to the address.
  function Assemble(a: RamAddr, even: Word, odd: Word): (w: Word)
    requires a.Valid()
  {
    var ordered := if a.odd then odd + even else even + odd;
    ordered[a.offset..a.offset + WORD]
  }

  function ReadWord(m: Banks, a: RamAddr): Word
    requires a.Valid()
  {
    Assemble(a, m.even[a.EvenRow()], m.odd[a.OddRow()])
  }

  // Where byte `k` of a 128-byte block starting at the address' word is.
  lemma BlockByte(m: Banks, a: RamAddr, p: nat)
    requires a.Valid() && p < 2 * WORD
    ensures var x := Along(a.(offset := 0), p);
      At(m, x) == if a.odd == (p < WORD) then m.odd[a.OddRow()][p % WORD] else m.even[a.EvenRow()][p % WORD]
  {
    var b := a.(offset := 0);
    var x, q := Along(b, p), p % WORD;
    var row := if a.odd && p >= WORD then a.EvenRow() else a.row;
    var odd := a.odd == (p < WORD);
    assert p == (if p < WORD then 0 else WORD) + q by {
      DivMod(p, WORD, if p < WORD then 0 else 1, if p < WORD then p else p - WORD);
    }
    assert x == 2 * WORD * row + (if odd then WORD else 0) + q;
    DivMod(x, 2 * WORD, row, (if odd then WORD else 0) + q);
    DivMod(x, WORD, 2 * row + (if odd then 1 else 0), q);
  }

  // A read returns the 64 bytes from its address on, whatever the alignment.
  lemma ReadIsFlat(m: Banks, a: RamAddr, k: nat)
    requires a.Valid() && k < WORD
    ensures ReadWord(m, a)[k] == At(m, Along(a, k))
  {
    var p := a.offset + k;
    BlockByte(m, a, p);
    assert Along(a.(offset := 0), p) == Along(a, k);
    DivMod(p, WORD, if p < WORD then 0 else 1, if p < WORD then p else p - WORD);
  }

  /* Writing. */

  // 8-bit lengths; the data port carries 64 bytes.
  datatype WriteReq = WriteReq(addr: RamAddr, len: nat, data: Word) {
    predicate Valid() {
      addr.Valid() && len < 256
    }
  }

  // Byte enables over 128 bytes: all ones shifted right by 128 - len, an 8-bit difference,
  // then left by the offset.
  function Enables(r: WriteReq): (be: seq<bool>)
    requires r.Valid()
    ensures |be| == 2 * WORD
  {
    var drop := (2 * WORD + 256 - r.len) % 256;
    seq(2 * WORD, p => p >= r.addr.offset && p - r.addr.offset < 2 * WORD - drop)
  }

  // The data, extended with zeros and shifted to the offset.
  function Extended(r: WriteReq): (d: seq<Byte>)
    requires r.Valid()
    ensures |d| == 2 * WORD
  {
    seq(2 * WORD, p requires 0 <= p < 2 * WORD =>
      if r.addr.offset <= p < r.addr.offset + WORD then r.data[p - r.addr.offset] else 0)
  }

  function EvenWrite(r: WriteReq): SegWrite
    requires r.Valid()
  {
    if r.addr.odd then SegWrite(r.addr.EvenRow(), Enables(r)[WORD..], Extended(r)[WORD..])
    else SegWrite(r.addr.EvenRow(), Enables(r)[..WORD], Extended(r)[..WORD])
  }

  function OddWrite(r: WriteReq): SegWrite
    requires r.Valid()
  {
    if r.addr.odd then SegWrite(r.addr.OddRow(), Enables(r)[..WORD], Extended(r)[..WORD])
    else SegWrite(r.addr.OddRow(), Enables(r)[WORD..], Extended(r)[WORD..])
  }

  function WriteBanks(m: Banks, r: WriteReq): Banks
    requires r.Valid()
  {
    Banks(Written(m.even, EvenWrite(r)), Written(m.odd, OddWrite(r)))
  }

  // How many bytes a write changes: up to 64 the length asks for; longer ones go on with zeros
  // to the end of the 128-byte block, and from 129 nothing is enabled.
  function Reach(r: WriteReq): nat
    requires r.Valid()
  {
    if r.len > 2 * WORD then 0
    else if r.addr.offset + r.len > 2 * WORD then 2 * WORD - r.addr.offset
    else r.len
  }

  lemma EnabledByte(r: WriteReq, p: nat)
    requires r.Valid() && p < 2 * WORD
    ensures Enables(r)[p] <==> r.addr.offset <= p < r.addr.offset + Reach(r)
  {
    var d := 2 * WORD + 256 - r.len;
    if r.len > 2 * WORD {
      DivMod(d, 256, 0, d);
    } else {
      DivMod(d, 256, 1, d - 256);
    }
  }

  // Bytes outside the 128-byte block are in words the write does not address.
  lemma OutsideBlock(a: RamAddr, x: nat)
    requires a.Valid() && x < SPACE && Distance(a.(offset := 0), x) >= 2 * WORD
    ensures if x % (2 * WORD) < WORD then x / (2 * WORD) != a.EvenRow() else x / (2 * WORD) != a.OddRow()
  {
    assert x == 2 * WORD * (x / (2 * WORD)) + x % (2 * WORD);
  }

  lemma InsideBlock(m: Banks, r: WriteReq, p: nat)
    requires r.Valid() && p < 2 * WORD
    ensures var x := Along(r.addr.(offset := 0), p);
      At(WriteBanks(m, r), x) == if Enables(r)[p] then Extended(r)[p] else At(m, x)
  {
    var q := p % WORD;
    assert p == (if p < WORD then 0 else WORD) + q by {
      DivMod(p, WORD, if p < WORD then 0 else 1, if p < WORD then p else p - WORD);
    }
    BlockByte(m, r.addr, p);
    BlockByte(WriteBanks(m, r), r.addr, p);
    hide At, Enables, Extended;
  }

  // A write changes exactly the bytes it reaches, whatever its alignment; up to 64 bytes these
  // are the bytes of its data.
  lemma WriteIsFlat(m: Banks, r: WriteReq, x: nat)
    requires r.Valid() && x < SPACE
    ensures var k := Distance(r.addr, x);
      At(WriteBanks(m, r), x) == if k >= Reach(r) then At(m, x) else if k < WORD then r.data[k] else 0
  {
    var b := r.addr.(offset := 0);
    var p := Distance(b, x);
    if p < 2 * WORD {
      assert Along(b, p) == x;
      InsideBlock(m, r, p);
      EnabledByte(r, p);
      hide At, WriteBanks, Enables;
      assert p >= r.addr.offset ==> Distance(r.addr, x) == p - r.addr.offset;
      assert p < r.addr.offset ==> Distance(r.addr, x) == p - r.addr.offset + SPACE;
    } else {
      OutsideBlock(r.addr, x);
      hide Enables, Extended;
    }
  }

  // A write of 65 bytes puts a zero behind the 64 bytes of its data.
  lemma OneByteTooMany(m: Banks, r: WriteReq)
    requires r.addr == RamAddr(0, false, 0) && r.len == 65
    ensures At(WriteBanks(m, r), 64) == 0
  {
    WriteIsFlat(m, r, 64);
    hide WriteBanks, At;
  }

  // What was written is what is read.
  lemma ReadBack(m: Banks, r: WriteReq, k: nat)
    requires r.Valid() && k < r.len <= WORD
    ensures ReadWord(WriteBanks(m, r), r.addr)[k] == r.data[k]
  {
    hide ReadWord, WriteBanks, At;
    ReadIsFlat(WriteBanks(m, r), r.addr, k);
    WriteIsFlat(m, r, Along(r.addr, k));
  }
}
