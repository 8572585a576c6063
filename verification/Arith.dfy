/** Powers of two, and integer division facts shared by the other modules. */
module Arith {
  function Power2(k: nat): (r: nat)
    ensures r > 0
  {
    if k == 0 then 1 else 2 * Power2(k - 1)
  }

  lemma MulOrder(a: int, b: int, m: int)
    requires m >= 0
    ensures a >= b ==> a * m >= b * m
    ensures a <= b ==> a * m <= b * m
  {
    if a >= b { assert (a - b) * m >= 0; }
    if a <= b { assert (b - a) * m >= 0; }
  }

  /** Quotient and remainder are unique. */
  lemma Division(x: int, q: int, r: int, m: int)
    requires m > 0 && x == q * m + r && 0 <= r < m
    ensures x / m == q && x % m == r
  {
    var d := x / m - q;
    assert d * m == r - x % m;
    MulOrder(d, 1, m);
    MulOrder(d, -1, m);
  }

  /** Numbers that differ by a multiple of m have the same residue. */
  lemma SameResidue(x: int, y: int, q: int, m: int)
    requires m > 0 && x == y + m * q
    ensures x % m == y % m
  {
    assert x == (y / m + q) * m + y % m;
    Division(x, y / m + q, y % m, m);
  }
}
