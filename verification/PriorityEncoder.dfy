/** The tree of two-way selections that finds the first or the last set bit. */
module PriorityEncoder {

  // Is a bit of the group set, and which one is chosen, counted inside the group?
  datatype Code = Code(valid: bool, index: nat)

  predicate PowerOfTwo(n: nat) {
    n == 1 || (n > 1 && n % 2 == 0 && PowerOfTwo(n / 2))
  }

  // The first level looks at pairs of bits.
  function Pair(b0: bool, b1: bool, lsbFirst: bool): Code {
    Code(b0 || b1, if lsbFirst then if b0 then 0 else 1 else if b1 then 1 else 0)
  }

  // A further level puts one bit in front of the chosen half's index.
  function Join(lo: Code, hi: Code, half: nat, lsbFirst: bool): Code {
    Code(lo.valid || hi.valid,
         if lsbFirst then if lo.valid then lo.index else half + hi.index
         else if hi.valid then half + hi.index else lo.index)
  }

  // Is `k` the set bit that comes first in the given direction?
  predicate Chosen(bits: seq<bool>, k: nat, lsbFirst: bool) {
    && k < |bits| && bits[k]
    && forall j :: 0 <= j < |bits| && bits[j] ==> if lsbFirst then k <= j else j <= k
  }

  predicate Any(bits: seq<bool>) {
    exists j :: 0 <= j < |bits| && bits[j]
  }

  function Tree(bits: seq<bool>, lsbFirst: bool): (c: Code)
    requires |bits| >= 2 && PowerOfTwo(|bits|)
    ensures c.valid <==> Any(bits)
    ensures c.valid ==> Chosen(bits, c.index, lsbFirst)
    decreases |bits|
  {
    if |bits| == 2 then
      Pair(bits[0], bits[1], lsbFirst)
    else
      var half := |bits| / 2;
      assert half != 1;
      var lo, hi := Tree(bits[..half], lsbFirst), Tree(bits[half..], lsbFirst);
      JoinIsExact(bits, half, lo, hi, lsbFirst);
      Join(lo, hi, half, lsbFirst)
  }

  lemma JoinIsExact(bits: seq<bool>, half: nat, lo: Code, hi: Code, lsbFirst: bool)
    requires half <= |bits|
    requires (lo.valid <==> Any(bits[..half])) && (lo.valid ==> Chosen(bits[..half], lo.index, lsbFirst))
    requires (hi.valid <==> Any(bits[half..])) && (hi.valid ==> Chosen(bits[half..], hi.index, lsbFirst))
    ensures var c := Join(lo, hi, half, lsbFirst);
      (c.valid <==> Any(bits)) && (c.valid ==> Chosen(bits, c.index, lsbFirst))
  {
    assert forall j :: 0 <= j < half ==> bits[j] == bits[..half][j];
    assert forall j :: half <= j < |bits| ==> bits[j] == bits[half..][j - half];
    if lo.valid {
      assert bits[lo.index];
    }
    if hi.valid {
      assert bits[half + hi.index];
    }
  }

  // The width of the tree for a number of inputs.
  function Width(inputs: nat): (w: nat)
    requires 1 <= inputs
    ensures inputs <= w && 2 <= w && PowerOfTwo(w) && (w == 2 || w < 2 * inputs)
  {
    Grown(2, inputs)
  }

  function Grown(w: nat, inputs: nat): (r: nat)
    requires 2 <= w && PowerOfTwo(w) && (w == 2 || w < 2 * inputs)
    ensures inputs <= r && PowerOfTwo(r) && (r == 2 || r < 2 * inputs) && r >= 2
    decreases 2 * inputs - w
  {
    if w >= inputs then w else Grown(2 * w, inputs)
  }

  function Encode(bits: seq<bool>, lsbFirst: bool): Code
    requires 1 <= |bits|
  {
    Tree(bits + seq(Width(|bits|) - |bits|, _ => false), lsbFirst)
  }

  // For any number of inputs, the encoder is valid when one is set, and then names the first
  // of them in its direction.
  lemma EncodeIsExact(bits: seq<bool>, lsbFirst: bool)
    requires 1 <= |bits|
    ensures var c := Encode(bits, lsbFirst);
      (c.valid <==> Any(bits)) && (c.valid ==> Chosen(bits, c.index, lsbFirst))
  {
    var padded := bits + seq(Width(|bits|) - |bits|, _ => false);
    assert forall j :: 0 <= j < |padded| ==> padded[j] == (j < |bits| && bits[j]);
    assert Any(bits) ==> Any(padded) by {
      if Any(bits) {
        var j :| 0 <= j < |bits| && bits[j];
        assert padded[j];
      }
    }
  }
}
