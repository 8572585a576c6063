/** What the CRC means: it is the remainder of a division of polynomials, and it tells apart
    messages that differ in one stretch of 32 bits. */
module Crc32Theory {
  import opened Crc32Table
  import opened Crc32

  // ------ polynomials as lists of coefficients, the highest first

  /** The sum of two polynomials over the two-element field. */
  function Sum(a: seq<bool>, b: seq<bool>): (s: seq<bool>)
    requires |a| == |b|
    ensures |s| == |a| && forall i :: 0 <= i < |a| ==> s[i] == (a[i] != b[i])
  {
    if a == [] then [] else Sum(a[..|a| - 1], b[..|b| - 1]) + [a[|a| - 1] != b[|b| - 1]]
  }

  function Zeros(n: nat): (s: seq<bool>)
    ensures |s| == n && forall i :: 0 <= i < n ==> !s[i]
  {
    if n == 0 then [] else Zeros(n - 1) + [false]
  }

  /** The coefficients of QUOTIENT, from x^31 down. */
  const QUOTIENT_BITS: seq<bool> := FourBytes(0x04, 0xc1, 0x1d, 0xb7)

  /** x^32 + QUOTIENT */
  const DIVISOR: seq<bool> := [true] + QUOTIENT_BITS

  /** q times the divisor. */
  function Product(q: seq<bool>): (p: seq<bool>)
    ensures |p| == |q| + 32
  {
    if q == [] then Zeros(32)
    else
      var n := |q| - 1;
      DivisorLength();
      var shifted := Product(q[..n]) + [false];
      if q[n] then Sum(shifted, Zeros(n) + DIVISOR) else shifted
  }

  lemma DivisorLength()
    ensures |QUOTIENT_BITS| == 32 && |DIVISOR| == 33
  {
    WordRem(0x04, 0xc1, 0x1d, 0xb7);
  }

  lemma {:induction false} SumRem(a: seq<bool>, b: seq<bool>)
    requires |a| == |b|
    ensures Rem(Sum(a, b)) == Xor(Rem(a), Rem(b))
  {
    hide X, Xor, Bit, Sum;
    if a == [] {
      assert Sum(a, b) == [] && b == [];
      XorOrder(ZERO, ZERO, ZERO);
    } else {
      var n := |a| - 1;
      SumRem(a[..n], b[..n]);
      assert Sum(a, b) == Sum(a[..n], b[..n]) + [a[n] != b[n]];
      RemAppend(Sum(a[..n], b[..n]), a[n] != b[n]);
      XLinear(Rem(a[..n]), Rem(b[..n]));
      BitSum(a[n], b[n]);
      FourSums(X(Rem(a[..n])), X(Rem(b[..n])), Bit(a[n]), Bit(b[n]));
    }
  }

  lemma BitSum(a: bool, b: bool)
    ensures Bit(a != b) == Xor(Bit(a), Bit(b))
  {
  }

  lemma FourSums(a: Poly, b: Poly, c: Poly, d: Poly)
    ensures Xor(Xor(a, b), Xor(c, d)) == Xor(Xor(a, c), Xor(b, d))
  {
    hide Xor;
    XorOrder(a, b, Xor(c, d));
    XorOrder(b, c, d);
    XorOrder(c, b, d);
    XorOrder(a, c, Xor(b, d));
  }

  lemma {:induction false} ZerosRem(n: nat)
    ensures Rem(Zeros(n)) == ZERO
  {
    hide X, Xor;
    if n > 0 {
      ZerosRem(n - 1);
      RemAppend(Zeros(n - 1), false);
      TimesZero(1);
      assert Times(ZERO, 1) == X(Times(ZERO, 0));
      XorOrder(ZERO, ZERO, ZERO);
    }
  }

  /** The divisor itself has remainder 0: x^32 is QUOTIENT. */
  lemma DivisorRem()
    ensures Rem(DIVISOR) == ZERO
  {
    hide X, Xor, MulX8, Rem, Times;
    DivisorLength();
    RemConcat([true], QUOTIENT_BITS);
    WordRem(0x04, 0xc1, 0x1d, 0xb7);
    QuotientWord();
    OneRem();
    PowerThirtyTwo();
    XorOrder(Poly(QUOTIENT), ZERO, ZERO);
  }

  lemma QuotientWord()
    ensures BigEndian(0x04, 0xc1, 0x1d, 0xb7) == QUOTIENT
  {
  }

  lemma OneRem()
    ensures Rem([true]) == Poly(1)
  {
    assert Rem([]) == ZERO;
    RemAppend([], true);
    assert [] + [true] == [true];
  }

  lemma PowerThirtyTwo()
    ensures Times(Poly(1), 32) == Poly(QUOTIENT)
  {
    hide Times, MulX8;
    EightTimes(Poly(1));
    EightTimes(Poly(0x100));
    EightTimes(Poly(0x10000));
    EightTimes(Poly(0x1000000));
    FourPowers();
    FourRounds(Poly(1));
  }

  lemma FourPowers()
    ensures MulX8(1) == 0x100 && MulX8(0x100) == 0x10000 && MulX8(0x10000) == 0x1000000 && MulX8(0x1000000) == QUOTIENT
  {
  }

  lemma {:induction false} ProductRem(q: seq<bool>)
    ensures Rem(Product(q)) == ZERO
  {
    hide X, Xor, Rem, DIVISOR, QUOTIENT_BITS;
    if q == [] {
      ZerosRem(32);
    } else {
      var n := |q| - 1;
      ProductRem(q[..n]);
      DivisorLength();
      var shifted := Product(q[..n]) + [false];
      ShiftedRem(Product(q[..n]));
      if q[n] {
        SumRem(shifted, Zeros(n) + DIVISOR);
        RemConcat(Zeros(n), DIVISOR);
        ZerosRem(n);
        TimesZero(|DIVISOR|);
        DivisorRem();
        XorOrder(ZERO, ZERO, ZERO);
      }
    }
  }

  lemma ShiftedRem(p: seq<bool>)
    requires Rem(p) == ZERO
    ensures Rem(p + [false]) == ZERO
  {
    RemAppend(p, false);
  }

  /** A polynomial with quotient q and remainder r. */
  function Dividend(q: seq<bool>, r: seq<bool>): seq<bool>
    requires |r| == 32
  {
    Sum(Product(q), Zeros(|q|) + r)
  }

  /** Rem finds the remainder, whatever the quotient. */
  lemma RemOfDividend(q: seq<bool>, r: seq<bool>)
    requires |r| == 32
    ensures Rem(Dividend(q, r)) == Rem(r)
  {
    hide X, Xor, Rem, Product;
    SumRem(Product(q), Zeros(|q|) + r);
    ProductRem(q);
    RemConcat(Zeros(|q|), r);
    ZerosRem(|q|);
    TimesZero(32);
    XorOrder(Rem(r), ZERO, ZERO);
    XorOrder(ZERO, Rem(r), ZERO);
  }

  /** And every polynomial of at least 32 coefficients has a quotient and a remainder. */
  lemma {:induction false} Divide(m: seq<bool>) returns (q: seq<bool>, r: seq<bool>)
    requires |m| >= 32
    ensures |r| == 32 && |q| == |m| - 32 && m == Dividend(q, r)
  {
    hide QUOTIENT_BITS;
    DivisorLength();
    if |m| == 32 {
      q, r := [], m;
      assert Zeros(0) + m == m;
      assert m == Dividend([], m);
    } else {
      var n := |m| - 33;
      var q0, r0 := Divide(m[..|m| - 1]);
      var longer := r0 + [m[|m| - 1]];
      var top := longer[0];
      q := q0 + [top];
      assert q[..n] == q0 && q[n] == top;
      r := if top then Sum(longer[1..], QUOTIENT_BITS) else longer[1..];
      DivideStep(m, q0, r0, q, r, longer);
    }
  }

  lemma DivideStep(m: seq<bool>, q0: seq<bool>, r0: seq<bool>, q: seq<bool>, r: seq<bool>, longer: seq<bool>)
    requires |m| >= 33 && |r0| == 32 && |q0| == |m| - 33 && m[..|m| - 1] == Dividend(q0, r0)
    requires longer == r0 + [m[|m| - 1]] && q == q0 + [longer[0]] && |QUOTIENT_BITS| == 32
    requires r == if longer[0] then Sum(longer[1..], QUOTIENT_BITS) else longer[1..]
    ensures m == Dividend(q, r)
  {
    hide QUOTIENT_BITS, Sum, Zeros;
    var n, last := |q0|, m[|m| - 1];
    assert q[..n] == q0 && q[n] == longer[0];
    DivisorLength();
    var p, shifted := Product(q0), Product(q0) + [false];
    forall i | 0 <= i < |m|
      ensures m[i] == (shifted[i] != (i >= n && longer[i - n]))
    {
      if i < |m| - 1 {
        assert m[i] == Dividend(q0, r0)[i] == (p[i] != (Zeros(n) + r0)[i]);
      }
    }
    forall i | 0 <= i < |m|
      ensures Product(q)[i] == (shifted[i] != (longer[0] && i >= n && DIVISOR[i - n]))
    {
      if longer[0] { assert Product(q)[i] == (shifted[i] != (Zeros(n) + DIVISOR)[i]); }
    }
    var low := Zeros(n + 1) + r;
    forall i | 0 <= i < |m|
      ensures low[i] == (i > n && (longer[i - n] != (longer[0] && DIVISOR[i - n])))
    {
      if i > n { assert longer[1..][i - n - 1] == longer[i - n] && DIVISOR[i - n] == QUOTIENT_BITS[i - n - 1]; }
    }
    var d := Dividend(q, r);
    forall i | 0 <= i < |m|
      ensures d[i] == m[i]
    {
      assert d[i] == (Product(q)[i] != low[i]);
    }
  }
}
