/** IEEE 754 double precision as used by the Poly1305 code: a finite double is its exact
    real value, and every operation rounds the exact result to 53 significant bits, to
    nearest with ties to even.  No overflow bound is modelled: every value the code
    forms is below 2^184. */
module Doubles {
  import opened Arith

  /** 2^e for any integer e. */
  function Pow2(e: int): (r: real)
    ensures r > 0.0
    decreases if e < 0 then -e else e
  {
    if e == 0 then 1.0 else if e > 0 then 2.0 * Pow2(e - 1) else Pow2(e + 1) / 2.0
  }

  /** The product of two reals, named so that the solver treats it as one term. */
  function Times(x: real, y: real): real { x * y }

  /** k * 2^e. */
  function Scale(k: int, e: int): real {
    Times(k as real, Pow2(e))
  }

  const TWO53 := 0x20_0000_0000_0000
  const TWO52 := 0x10_0000_0000_0000
  const MIN_EXPONENT := -1074

  /** The values a double can hold. */
  ghost predicate IsDouble(x: real) {
    exists k: int, e: int :: -TWO53 < k < TWO53 && MIN_EXPONENT <= e && x == Scale(k, e)
  }

  /** The integer nearest to z, the even one of two equally near. */
  function RoundToInt(z: real): int {
    var f := z.Floor;
    var frac := z - f as real;
    if frac < 0.5 || (frac == 0.5 && f % 2 == 0) then f else f + 1
  }

  function Distance(x: real): nat
    requires x > 0.0
  {
    if x >= TWO53 as real then x.Floor
    else if x < TWO52 as real then (TWO53 as real / x).Floor else 0
  }

  lemma DistanceShrinks(x: real)
    requires x > 0.0
    ensures x >= TWO53 as real ==> Distance(x / 2.0) < Distance(x)
    ensures x < TWO52 as real ==> Distance(2.0 * x) < Distance(x)
  {
    if x < TWO52 as real {
      var q := TWO53 as real / x;
      QuotientAbove(TWO53 as real, x);
      QuotientHalved(TWO53 as real, x);
    }
  }

  lemma QuotientAbove(a: real, x: real)
    requires x > 0.0 && a > 2.0 * x
    ensures a / x > 2.0
  {
    var q := a / x;
    assert q * x == a;
    assert (q - 2.0) * x == a - 2.0 * x;
    FactorSign(q - 2.0, x);
  }

  lemma FactorSign(c: real, x: real)
    requires x > 0.0
    ensures c <= 0.0 ==> c * x <= 0.0
  {
  }

  lemma QuotientHalved(a: real, x: real)
    requires x > 0.0
    ensures a / (2.0 * x) == (a / x) / 2.0
  {
    var q := a / x;
    assert q * x == a;
    assert (q / 2.0) * (2.0 * x) == a;
  }

  /** The exponent of the unit in the last place of x: x lies in [2^52, 2^53) * 2^e. */
  function Binade(x: real): (e: int)
    requires x > 0.0
    decreases Distance(x)
    ensures Scale(TWO52, e) <= x < Scale(TWO53, e)
  {
    DistanceShrinks(x);
    if x >= TWO53 as real then 1 + Binade(x / 2.0)
    else if x < TWO52 as real then Binade(2.0 * x) - 1
    else assert Pow2(0) == 1.0; 0
  }

  function Abs(x: real): real {
    if x < 0.0 then -x else x
  }

  /** The exponent of the unit in which x is stored: that of its binade, or the least one. */
  function Ulp(x: real): int {
    if x == 0.0 then MIN_EXPONENT
    else
      var e := Binade(Abs(x));
      if e < MIN_EXPONENT then MIN_EXPONENT else e
  }

  /** The double that the hardware delivers for the exact result x. */
  function Fl(x: real): real {
    Scale(RoundToInt(x / Pow2(Ulp(x))), Ulp(x))
  }

  function FAdd(a: real, b: real): real { Fl(a + b) }
  function FSub(a: real, b: real): real { Fl(a - b) }
  function FMul(a: real, b: real): real { Fl(Times(a, b)) }

  lemma {:induction false} Pow2Step(e: int)
    ensures Pow2(e + 1) == 2.0 * Pow2(e)
  {
  }

  lemma {:induction false} Pow2Add(a: int, b: int)
    ensures Pow2(a + b) == Times(Pow2(a), Pow2(b))
    decreases if b < 0 then -b else b
  {
    if b == 0 {
    } else if b > 0 {
      Pow2Add(a, b - 1);
      Pow2Step(a + b - 1);
      DoubleBoth(Pow2(a), Pow2(b - 1), Pow2(a + (b - 1)), Pow2(b), Pow2(a + b));
    } else {
      Pow2Add(a, b + 1);
      Pow2Step(a + b);
      DoubleBoth(Pow2(a), Pow2(b), Pow2(a + b), Pow2(b + 1), Pow2(a + (b + 1)));
    }
  }

  lemma DoubleBoth(x: real, y: real, xy: real, y2: real, xy2: real)
    requires y2 == 2.0 * y && xy2 == 2.0 * xy
    ensures xy == Times(x, y) <==> xy2 == Times(x, y2)
  {
    assert x * y2 == 2.0 * (x * y);
  }

  /** 2^d as an integer. */
  function IntPow2(d: nat): (r: int)
    ensures r >= 1
    ensures r as real == Pow2(d)
  {
    if d == 0 then 1 else 2 * IntPow2(d - 1)
  }

  lemma Rebase(k: int, d: nat, e: int)
    ensures Scale(k * IntPow2(d), e) == Scale(k, e + d)
  {
    Pow2Add(e, d);
    var n := k * IntPow2(d);
    Reassociate(k as real, IntPow2(d) as real, Pow2(e), n as real, Pow2(e + d));
  }

  lemma Reassociate(k: real, d: real, p: real, kd: real, pd: real)
    requires kd == k * d && pd == Times(p, d)
    ensures Times(kd, p) == Times(k, pd)
  {
    assert k * d * p == k * (p * d);
  }

  lemma TimesOrder(x: real, y: real, p: real)
    requires p > 0.0
    ensures x < y <==> Times(x, p) < Times(y, p)
  {
    if x < y { assert (y - x) * p > 0.0; }
    if x > y { assert (x - y) * p > 0.0; }
  }

  lemma TimesAdd(x: real, y: real, p: real)
    ensures Times(x, p) + Times(y, p) == Times(x + y, p)
    ensures Times(x, p) - Times(y, p) == Times(x - y, p)
  {
  }

  lemma ScaleOrder(a: int, b: int, e: int)
    ensures a < b <==> Scale(a, e) < Scale(b, e)
    ensures a <= b <==> Scale(a, e) <= Scale(b, e)
  {
    TimesOrder(a as real, b as real, Pow2(e));
    TimesOrder(b as real, a as real, Pow2(e));
  }

  lemma ScaleAdd(a: int, b: int, e: int)
    ensures Scale(a, e) + Scale(b, e) == Scale(a + b, e)
    ensures Scale(a, e) - Scale(b, e) == Scale(a - b, e)
  {
    TimesAdd(a as real, b as real, Pow2(e));
  }

  lemma ScaleAbs(a: int, e: int)
    ensures Abs(Scale(a, e)) == Scale(if a < 0 then -a else a, e)
    ensures Scale(a, e) == 0.0 <==> a == 0
  {
    assert Scale(0, e) == 0.0;
    ScaleOrder(a, 0, e);
    ScaleOrder(0, a, e);
    ScaleAdd(0, a, e);
  }

  lemma ScaleMul(a: int, ea: int, b: int, eb: int)
    ensures Times(Scale(a, ea), Scale(b, eb)) == Scale(a * b, ea + eb)
  {
    Pow2Add(ea, eb);
    var ab := a * b;
    Regroup(a as real, Pow2(ea), b as real, Pow2(eb), ab as real, Pow2(ea + eb));
  }

  lemma Regroup(a: real, p: real, b: real, q: real, ab: real, pq: real)
    requires pq == Times(p, q) && ab == a * b
    ensures Times(Times(a, p), Times(b, q)) == Times(ab, pq)
  {
    assert (a * p) * (b * q) == (a * b) * (p * q);
  }

  /** A multiple of 2^e below 2^(e+53) is stored with a unit of at most 2^e. */
  lemma UlpOfMultiple(k: int, e: int)
    requires -TWO53 < k < TWO53 && MIN_EXPONENT <= e
    ensures Ulp(Scale(k, e)) <= e
  {
    ScaleAbs(k, e);
    if k != 0 {
      var n := if k < 0 then -k else k;
      var b := Binade(Scale(n, e));
      if b > e {
        var d := b - e;
        Rebase(TWO52, d, e);
        assert IntPow2(d) >= 2;
        ScaleOrder(TWO52 * IntPow2(d), n, e);
        assert false;
      }
    }
  }

  /** Exactness: rounding leaves every multiple of 2^e with a 53-bit multiplier alone. */
  lemma Exact(k: int, e: int)
    requires -TWO53 < k < TWO53 && MIN_EXPONENT <= e
    ensures Fl(Scale(k, e)) == Scale(k, e)
  {
    UlpOfMultiple(k, e);
    var u := Ulp(Scale(k, e));
    Rebase(k, e - u, u);
    var n := k * IntPow2(e - u);
    Divide(n as real, Pow2(u), Scale(k, e));
  }

  lemma Divide(n: real, p: real, np: real)
    requires p > 0.0 && np == Times(n, p)
    ensures np / p == n
  {
  }

  lemma BinadeUnique(x: real, e: int)
    requires x > 0.0 && Scale(TWO52, e) <= x < Scale(TWO53, e)
    ensures Binade(x) == e
  {
    var b := Binade(x);
    if b > e {
      Rebase(TWO52, b - e, e);
      ScaleOrder(TWO52 * IntPow2(b - e), TWO53, e);
    } else if b < e {
      Rebase(TWO52, e - b, b);
      ScaleOrder(TWO52 * IntPow2(e - b), TWO53, b);
    }
  }

  /** Three times 2^51, the multiplier of every rounding constant alpha_e = 3 * 2^(51+e). */
  const ALPHA := 0x18_0000_0000_0000

  lemma Quotient(n: int, f: int, d: nat)
    ensures Scale(n, f) / Pow2(f + d) == n as real / IntPow2(d) as real
  {
    Pow2Add(f, d);
    Cancel(n as real, Pow2(f), IntPow2(d) as real, Pow2(f + d));
  }

  lemma Cancel(n: real, p: real, d: real, pd: real)
    requires p > 0.0 && d > 0.0 && pd == Times(p, d)
    ensures Times(n, p) / pd == n / d
  {
    var q := n / d;
    assert q * d == n;
    assert q * pd == Times(n, p) by {
      assert q * (p * d) == (q * d) * p;
    }
  }

  /** RoundToInt of n / m, with the error written without division. */
  lemma RoundQuotient(n: int, m: int) returns (c: int)
    requires m > 0
    ensures c == RoundToInt(n as real / m as real)
    ensures -m <= 2 * (n - c * m) <= m
  {
    var q, rho := n / m, n % m;
    assert n == q * m + rho;
    var z := n as real / m as real;
    Fraction(n as real, m as real, q as real, rho as real);
    assert z.Floor == q;
    c := RoundToInt(z);
    if c == q + 1 {
      assert c * m == q * m + m;
    }
  }

  lemma Fraction(n: real, m: real, q: real, rho: real)
    requires m > 0.0 && 0.0 <= rho < m && n == q * m + rho
    ensures 0.0 <= n / m - q < 1.0
    ensures n / m - q < 0.5 <==> 2.0 * rho < m
    ensures n / m - q == 0.5 <==> 2.0 * rho == m
  {
    var t := n / m - q;
    assert t * m == rho;
    TimesOrder(t, 0.0, m);
    TimesOrder(t, 1.0, m);
    TimesOrder(t, 0.5, m);
    TimesOrder(0.5, t, m);
  }

  const TWO51 := 0x8_0000_0000_0000

  /** Adding alpha_e to a multiple of 2^f, f = e - d, leaves a multiple of 2^e. */
  lemma AlphaSum(k: int, f: int, d: nat, m: int) returns (s: int)
    requires MIN_EXPONENT <= f && m == IntPow2(d)
    requires -TWO51 * m < k < TWO51 * m
    ensures FAdd(Scale(k, f), Scale(ALPHA, f + d)) == Scale(s, f + d)
    ensures -m <= 2 * (k + ALPHA * m - s * m) <= m
  {
    var e, n := f + d, k + ALPHA * m;
    Rebase(ALPHA, d, f);
    ScaleAdd(k, ALPHA * m, f);
    Rebase(TWO52, d, f);
    Rebase(TWO53, d, f);
    ScaleOrder(TWO52 * m, n, f);
    ScaleOrder(n, TWO53 * m, f);
    ScaleAbs(n, f);
    ScaleOrder(0, n, f);
    BinadeUnique(Scale(n, f), e);
    Quotient(n, f, d);
    s := RoundQuotient(n, m);
  }

  /** Adding and subtracting alpha_e rounds a multiple of 2^f to a nearest multiple of
      2^e, e = f + d: that is how the code carries without a floor instruction. */
  lemma CarryTrick(k: int, f: int, d: nat, m: int) returns (c: int)
    requires MIN_EXPONENT <= f && m == IntPow2(d)
    requires -TWO51 * m < k < TWO51 * m
    ensures FSub(FAdd(Scale(k, f), Scale(ALPHA, f + d)), Scale(ALPHA, f + d)) == Scale(c, f + d)
    ensures -m <= 2 * (k - c * m) <= m
  {
    var s := AlphaSum(k, f, d, m);
    c := s - ALPHA;
    SmallCarry(k, c, m);
    assert c * m == s * m - ALPHA * m;
    ScaleAdd(s, ALPHA, f + d);
    Exact(c, f + d);
  }

  lemma SmallCarry(k: int, c: int, m: int)
    requires m >= 1 && -TWO51 * m < k < TWO51 * m
    requires -m <= 2 * (k + ALPHA * m - (c + ALPHA) * m) <= m
    ensures -TWO53 < c < TWO53
  {
    assert (c + ALPHA) * m == c * m + ALPHA * m;
    MulOrder(c, TWO53, m);
    MulOrder(c, -TWO53, m);
  }

  // ------ validation of the model: Fl rounds to a nearest double

  lemma NearestInt(t: real, j: int)
    ensures Abs(RoundToInt(t) as real - t) <= Abs(j as real - t)
  {
    var f := t.Floor;
    if j <= f {
      assert j as real <= f as real;
    } else {
      assert j as real >= f as real + 1.0;
    }
  }

  /** x measured in its own unit: less than 2^53, and at least 2^52 above the least unit. */
  lemma Normalised(x: real) returns (t: real)
    ensures t == x / Pow2(Ulp(x)) && x == Times(t, Pow2(Ulp(x)))
    ensures Abs(t) < TWO53 as real
    ensures Ulp(x) > MIN_EXPONENT ==> Abs(t) >= TWO52 as real
  {
    var u := Ulp(x);
    var p := Pow2(u);
    t := x / p;
    Undivide(x, p);
    if x != 0.0 {
      var b := Binade(Abs(x));
      if b < u {
        Rebase(TWO53, u - b, b);
        ScaleOrder(TWO53, TWO53 * IntPow2(u - b), b);
      }
      AbsTimes(t, p);
      TimesOrder(Abs(t), TWO53 as real, p);
      TimesOrder(Abs(t), TWO52 as real, p);
    }
  }

  lemma Undivide(x: real, p: real)
    requires p > 0.0
    ensures x == Times(x / p, p)
  {
  }

  lemma AbsTimes(t: real, p: real)
    requires p > 0.0
    ensures Abs(Times(t, p)) == Times(Abs(t), p)
  {
    if t < 0.0 { assert t * p < 0.0; }
    if t >= 0.0 { assert t * p >= 0.0; }
  }

  lemma FlIsDouble(x: real)
    ensures IsDouble(Fl(x))
  {
    var u := Ulp(x);
    var t := Normalised(x);
    var n := RoundToInt(t);
    assert -TWO53 <= n <= TWO53;
    if n == TWO53 {
      Rebase(TWO52, 1, u);
      assert IntPow2(1) == 2;
      assert Fl(x) == Scale(TWO52, u + 1);
    } else if n == -TWO53 {
      Rebase(-TWO52, 1, u);
      assert IntPow2(1) == 2;
      assert Fl(x) == Scale(-TWO52, u + 1);
    } else {
      assert Fl(x) == Scale(n, u);
    }
  }

  /** Fl(x) is a double, and none is nearer to x: FAdd, FSub and FMul are the operations of
      IEEE 754 in round-to-nearest mode. */
  lemma FlIsNearest(x: real, d: real)
    requires IsDouble(d)
    ensures IsDouble(Fl(x)) && Abs(Fl(x) - x) <= Abs(d - x)
  {
    FlIsDouble(x);
    var k: int, e: int :| -TWO53 < k < TWO53 && MIN_EXPONENT <= e && d == Scale(k, e);
    var u := Ulp(x);
    var t := Normalised(x);
    if e >= u {
      Rebase(k, e - u, u);
      MultipleIsFarther(x, t, u, k * IntPow2(e - u));
    } else {
      var w := if t < 0.0 then -TWO52 else TWO52;
      MultipleIsFarther(x, t, u, w);
      SmallIsFarther(x, t, u, k, e);
    }
  }

  lemma MultipleIsFarther(x: real, t: real, u: int, j: int)
    requires u == Ulp(x) && t == x / Pow2(u) && x == Times(t, Pow2(u))
    ensures Abs(Fl(x) - x) <= Abs(Scale(j, u) - x)
  {
    var p, n := Pow2(u), RoundToInt(t);
    NearestInt(t, j);
    TimesAdd(n as real, t, p);
    TimesAdd(j as real, t, p);
    AbsTimes(n as real - t, p);
    AbsTimes(j as real - t, p);
    TimesOrder(Abs(j as real - t), Abs(n as real - t), p);
  }

  lemma SmallIsFarther(x: real, t: real, u: int, k: int, e: int)
    requires e < u && -TWO53 < k < TWO53 && x == Times(t, Pow2(u)) && Abs(t) >= TWO52 as real
    ensures Abs(Scale(if t < 0.0 then -TWO52 else TWO52, u) - x) <= Abs(Scale(k, e) - x)
  {
    var p := Pow2(u);
    Rebase(TWO52, u - e, e);
    Rebase(-TWO52, u - e, e);
    var m := IntPow2(u - e);
    assert m >= 2 && -TWO52 * m <= k <= TWO52 * m;
    ScaleOrder(k, TWO52 * m, e);
    ScaleOrder(-TWO52 * m, k, e);
    TimesOrder(t, -TWO52 as real, p);
    TimesOrder(TWO52 as real, t, p);
    TimesOrder(-TWO52 as real, t, p);
    TimesOrder(t, TWO52 as real, p);
  }
}
