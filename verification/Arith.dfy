/** Division facts the address arithmetic rests on. */
module Arith {

  lemma MulOutgrows(k: int, c: int)
    requires c > 0
    ensures k >= 1 ==> k * c >= c
    ensures k <= -1 ==> k * c <= -c
  {
  }

  // Quotient and remainder are unique.
  lemma DivMod(x: int, c: int, q: int, r: int)
    requires c > 0 && x == q * c + r && 0 <= r < c
    ensures x / c == q && x % c == r
  {
    assert (q - x / c) * c == x % c - r;
    MulOutgrows(q - x / c, c);
  }

  lemma DivOnce(x: nat, c: nat)
    requires c > 0
    ensures (x + c) / c == x / c + 1 && (x + c) % c == x % c
  {
    assert x + c == (x / c + 1) * c + x % c;
    DivMod(x + c, c, x / c + 1, x % c);
  }

  lemma DivSmall(x: nat, c: nat)
    requires x < c
    ensures x / c == 0 && x % c == x
  {
    DivMod(x, c, 0, x);
  }

  // Reducing before adding changes nothing.
  lemma ModPlus(x: nat, n: nat, c: nat)
    requires c > 0
    ensures (x % c + n) % c == (x + n) % c
  {
    var q, p := x / c, (x % c + n) / c;
    assert x == q * c + x % c;
    assert x % c + n == p * c + (x % c + n) % c;
    assert (q + p) * c == q * c + p * c;
    DivMod(x + n, c, q + p, (x % c + n) % c);
  }

  // Two ways to the same sum, each reducing on the way.
  lemma SameRemainder(x: nat, m: nat, y: nat, n: nat, c: nat)
    requires c > 0 && x + m == y + n
    ensures (x % c + m) % c == (y % c + n) % c
  {
    ModPlus(x, m, c);
    ModPlus(y, n, c);
  }

  lemma ModPlusMultiple(x: nat, q: nat, c: nat)
    requires c > 0
    ensures (x + q * c) % c == x % c
  {
    assert x + q * c == (x / c + q) * c + x % c;
    DivMod(x + q * c, c, x / c + q, x % c);
  }

  // Reducing by a multiple first changes nothing.
  lemma ModTwice(x: nat, space: nat, row: nat)
    requires row > 0 && space > 0 && space % row == 0
    ensures x % space % row == x % row
  {
    var k := x / space * (space / row);
    MultipleOfRow(x / space, space, row);
    assert x == x % space + k * row;
    ModPlusMultiple(x % space, k, row);
  }

  lemma MultipleOfRow(q: nat, space: nat, row: nat)
    requires row > 0 && space % row == 0
    ensures q * space == q * (space / row) * row
  {
    var rows := space / row;
    assert space == rows * row;
  }

  // A range that ends `slack` short of the q-th multiple of c touches q multiples of c.
  lemma CeilExact(x: nat, c: nat, q: nat, slack: nat)
    requires c > 0 && x + slack == q * c && slack < c
    ensures (x + c - 1) / c == q
  {
    DivMod(x + c - 1, c, q, c - 1 - slack);
  }

  lemma NegativeFactor(k: int, c: int)
    requires c > 0 && k * c < 0
    ensures k < 0
  {
  }

  lemma NonNegativeProduct(k: int, c: int)
    requires c >= 0 && k >= 0
    ensures k * c >= 0
  {
  }

  // A space divided into whole rows holds the whole row of every one of its addresses.
  lemma RowsOf(x: nat, row: nat, space: nat) returns (rows: nat)
    requires row > 0 && space % row == 0 && x < space
    ensures rows == space / row && space == rows * row && x / row < rows
    ensures x == x / row * row + x % row && (x / row + 1) * row <= space
  {
    rows := space / row;
    var k := x / row;
    assert space == rows * row;
    assert x == k * row + x % row;
    assert (k - rows) * row == k * row - rows * row;
    NegativeFactor(k - rows, row);
    NonNegativeProduct(rows - (k + 1), row);
    assert (rows - (k + 1)) * row == rows * row - (k + 1) * row;
  }
}
