/** Powers modulo 2^255 - 19, square roots, and which numbers have one. */
module Residues {
  import opened Field25519

  // 2^252 - 3, and (P - 1) / 2
  const POWQ: nat := 7237005577332262213973186563042994240829374041602535252466099000494570602493
  const HALF: nat := 28948022309329048855892746252171976963317496166410141009864396001978282409974

  ghost predicate Invertible(v: int) {
    exists x :: Inverse(v, x)
  }

  lemma InvertibleSame(e: int, v: int)
    requires Same(e, v)
    ensures Invertible(e) ==> Invertible(v)
  {
    hide Same, Mul;
    if Invertible(e) {
      var x :| Inverse(e, x);
      SameSelf(x);
      SameSym(e, v);
      SameTimes(v, e, x, x);
      SameTrans(Mul(v, x), Mul(e, x), 1);
      assert Inverse(v, x);
    }
  }

  lemma SameAsPower(b: int, e: int, c: int)
    requires Same(b, e)
    ensures Same(b, c) <==> Same(e, c)
  {
    hide Same;
    SameSym(b, e);
    if Same(b, c) { SameTrans(e, b, c); }
    if Same(e, c) { SameTrans(b, e, c); }
  }

  lemma {:induction false} PowSame(a: int, b: int, n: nat)
    requires Same(a, b)
    ensures Same(Pow(a, n), Pow(b, n))
  {
    hide Same, Mul;
    if n == 0 {
      SameSelf(1);
    } else {
      PowSame(a, b, n - 1);
      SameTimes(a, b, Pow(a, n - 1), Pow(b, n - 1));
    }
  }

  lemma SquareOf(b: int, v: int)
    ensures Mul(Mul(b, v), Mul(b, v)) == Mul(Mul(Mul(b, b), v), v)
  {
    hide Mul;
    SquareOfProduct(b, v);
    Commute(Mul(v, v), Mul(b, b));
    Associate(Mul(b, b), v, v);
  }

  lemma PowerOfTwice(v: int, e: nat)
    ensures var t := Mul(Mul(Pow(v, e), Pow(v, e)), v); Mul(t, t) == Pow(v, 4 * e + 2)
  {
    hide Mul;
    PowSum(v, e, e);
    Units(v, v);
    assert Pow(v, 1) == Mul(v, Pow(v, 0)) == v;
    hide Pow;
    PowSum(v, 2 * e, 1);
    PowSum(v, 2 * e + 1, 2 * e + 1);
  }

  /** b3 = v^(2^253 - 5), and z squared is b3 v. */
  lemma Powers(v: int, b1: int, z: int, b2: int, b3: int)
    requires Same(b1, Pow(v, POWQ)) && Same(z, Mul(b1, v)) && Same(b2, Mul(b1, b1)) && Same(b3, Mul(b2, v))
    ensures Same(Mul(z, z), Mul(b3, v)) && Same(Mul(b3, b3), Pow(v, HALF))
  {
    hide Same, Pow, Mul;
    var e := Pow(v, POWQ);
    var s, t := Mul(Mul(b1, b1), v), Mul(Mul(e, e), v);
    SameSelf(v);
    SameTimes(b2, Mul(b1, b1), v, v);
    SameTrans(b3, Mul(b2, v), s);
    SameSquares(z, Mul(b1, v));
    SquareOf(b1, v);
    SameTimes(b3, s, v, v);
    SameSym(Mul(b3, v), Mul(s, v));
    SameTrans(Mul(z, z), Mul(s, v), Mul(b3, v));
    SameSquares(b1, e);
    SameTimes(Mul(b1, b1), Mul(e, e), v, v);
    SameTrans(b3, s, t);
    SameSquares(b3, t);
    PowerOfTwice(v, POWQ);
  }

  lemma SelectionIs(b3: int, b4: int, b5: int, z: int, w: int)
    requires Same(b4, Mul(b3, U)) && Same(b5, U - b4) && Same(w, Mul(b5 + 1, z))
    ensures Same(w, Mul(Factor(b3), z))
  {
    hide Zero, U, Mul;
    Commute(b3, U);
    ZeroSum(b5 - (U - b4), b4 - Mul(b3, U));
    SameSelf(z);
    SameTimes(b5 + 1, Factor(b3), z, z);
    SameTrans(w, Mul(b5 + 1, z), Mul(Factor(b3), z));
  }

  lemma RootForAll(v: int, b: int, w: int)
    requires forall i :: Same(Mul(b, b), -1) && Inverse(v, i) ==> !Same(Mul(w, w), v)
    ensures Same(Mul(b, b), -1) && Invertible(v) ==> !Same(Mul(w, w), v)
  {
  }

  // ------ which numbers have a root

  ghost predicate IsSquare(v: int) {
    exists r :: Same(Mul(r, r), v)
  }

  /** Fermat's theorem for the modulus, which holds because 2^255 - 19 is a prime. */
  ghost predicate Fermat() {
    forall v :: Same(v, 0) || Same(Pow(v, 2 * HALF), 1)
  }

  lemma FermatAt(v: int)
    requires Fermat() && !Same(v, 0)
    ensures Same(Pow(v, 2 * HALF), 1) && Invertible(v)
  {
    hide Same, Mul;
    assert Pow(v, 2 * HALF) == Mul(v, Pow(v, 2 * HALF - 1));
    assert Inverse(v, Pow(v, 2 * HALF - 1));
  }

  /** A power of a square. */
  lemma {:induction false} PowOfSquare(r: int, n: nat)
    ensures Pow(Mul(r, r), n) == Pow(r, 2 * n)
  {
    hide Mul;
    if n > 0 {
      PowOfSquare(r, n - 1);
      assert Pow(r, 2 * n) == Mul(r, Pow(r, 2 * n - 1));
      assert Pow(r, 2 * n - 1) == Mul(r, Pow(r, 2 * (n - 1)));
      Associate(r, r, Pow(r, 2 * (n - 1)));
    }
  }

  /** The value the branch-free selection computes. */
  function RootOf(v: int): int {
    var e := Pow(v, POWQ);
    Mul(Factor(Mul(Mul(e, e), v)), Mul(e, v))
  }

  /** Steps that agree with the formula's, agree at the end. */
  lemma RootOfIs(v: int, e: int, z: int, b2: int, b3: int, w: int)
    requires Same(e, Pow(v, POWQ)) && Same(z, Mul(e, v)) && Same(b2, Mul(e, e)) && Same(b3, Mul(b2, v))
    requires Same(w, Mul(Factor(b3), z))
    ensures Same(w, RootOf(v))
  {
    hide Same, Mul, Pow, Factor;
    var e' := Pow(v, POWQ);
    var b' := Mul(Mul(e', e'), v);
    SameSelf(v);
    SameTimes(e, e', v, v);
    SameTrans(z, Mul(e, v), Mul(e', v));
    SameTimes(e, e', e, e');
    SameTrans(b2, Mul(e, e), Mul(e', e'));
    SameTimes(b2, Mul(e', e'), v, v);
    SameTrans(b3, Mul(b2, v), b');
    FactorSame(b3, b');
    SameTimes(Factor(b3), Factor(b'), z, Mul(e', v));
    SameTrans(w, Mul(Factor(b3), z), RootOf(v));
  }

  lemma FactorSame(b: int, b': int)
    requires Same(b, b')
    ensures Same(Factor(b), Factor(b'))
  {
    hide Zero, Mul, U;
    SameSelf(U);
    SameTimes(U, U, b, b');
    SameSym(Mul(U, b), Mul(U, b'));
    assert Factor(b) - Factor(b') == Mul(U, b') - Mul(U, b);
  }

  lemma RootOfSameNumber(v: int, v': int)
    requires Same(v, v')
    ensures Same(RootOf(v), RootOf(v'))
  {
    hide Same, Mul, Pow, Factor;
    var e, e' := Pow(v, POWQ), Pow(v', POWQ);
    PowSame(v, v', POWQ);
    SameTimes(e, e', v, v');
    SameTimes(e, e', e, e');
    SameTimes(Mul(e, e), Mul(e', e'), v, v');
    FactorSame(Mul(Mul(e, e), v), Mul(Mul(e', e'), v'));
    SameTimes(Factor(Mul(Mul(e, e), v)), Factor(Mul(Mul(e', e'), v')), Mul(e, v), Mul(e', v'));
  }

  /** That value is a root if v is 0 or v^((P - 1) / 2) is 1, and is none if that is -1. */
  lemma RootOfSquares(v: int)
    ensures Same(v, 0) || Same(Pow(v, HALF), 1) ==> Same(Mul(RootOf(v), RootOf(v)), v)
    ensures Same(Pow(v, HALF), -1) && Invertible(v) ==> !Same(Mul(RootOf(v), RootOf(v)), v)
  {
    hide Same, Mul, Pow, Factor, Invertible;
    var b1 := Pow(v, POWQ);
    var z, b2 := Mul(b1, v), Mul(b1, b1);
    var b3 := Mul(b2, v);
    SameSelf(b1);
    SameSelf(z);
    SameSelf(b2);
    SameSelf(b3);
    SameSelf(RootOf(v));
    Powers(v, b1, z, b2, b3);
    SquareRoot(v, b3, z, RootOf(v));
    SameAsPower(Mul(b3, b3), Pow(v, HALF), 1);
    SameAsPower(Mul(b3, b3), Pow(v, HALF), -1);
    RootForAll(v, b3, RootOf(v));
  }

  /** What is the same as the formula's value is a root as well as it is. */
  lemma RootAsGood(v: int, w: int)
    requires Same(w, RootOf(v))
    ensures Same(Mul(w, w), v) <==> Same(Mul(RootOf(v), RootOf(v)), v)
  {
    hide Same, Mul, RootOf;
    SameSquares(w, RootOf(v));
    SameAsPower(Mul(w, w), Mul(RootOf(v), RootOf(v)), v);
  }

  /** The other half, and what the power is when there is no root. */
  lemma Euler(v: int)
    requires Fermat()
    ensures IsSquare(v) <==> Same(v, 0) || Same(Pow(v, HALF), 1)
    ensures !IsSquare(v) ==> Same(Pow(v, HALF), -1) && Invertible(v)
  {
    hide Same, Mul, Pow, Fermat, Invertible, RootOf;
    if Same(v, 0) || Same(Pow(v, HALF), 1) {
      RootOfSquares(v);
    } else {
      FermatAt(v);
      RootsOfOne(Pow(v, HALF), v);
      if IsSquare(v) {
        var r :| Same(Mul(r, r), v);
        RootOfZero(r, v);
        FermatAt(r);
        PowOfSquare(r, HALF);
        PowSame(Mul(r, r), v, HALF);
        SameAsPower(Pow(Mul(r, r), HALF), Pow(v, HALF), 1);
        assert false;
      }
    }
  }

  /** The formula's value is a root exactly if there is one. */
  lemma RootIfSquare(v: int)
    requires Fermat()
    ensures Same(Mul(RootOf(v), RootOf(v)), v) <==> IsSquare(v)
  {
    hide Same, Mul, Pow, Fermat, Invertible, RootOf;
    Euler(v);
    RootOfSquares(v);
    assert Same(Mul(RootOf(v), RootOf(v)), v) ==> IsSquare(v);
  }

  lemma RootOfZero(r: int, v: int)
    requires Same(Mul(r, r), v) && !Same(v, 0)
    ensures !Same(r, 0)
  {
    hide Zero, Mul;
    if Same(r, 0) {
      ZeroTimes(r, r);
      SameAsPower(Mul(r, r), v, 0);
    }
  }

  /** The square of w = v^HALF is 1, so w is 1 or -1. */
  lemma RootsOfOne(w: int, v: int)
    requires Fermat() && w == Pow(v, HALF) && Same(Pow(v, 2 * HALF), 1) && !Same(w, 1)
    ensures Same(w, -1)
  {
    hide Pow, Mul, Fermat, Zero;
    PowSum(v, HALF, HALF);
    DifferenceOfSquares(w);
    if !Same(w - 1, 0) {
      FermatAt(w - 1);
      var i :| Inverse(w - 1, i);
      Cancel(w - 1, i, w + 1);
    }
  }

  lemma DifferenceOfSquares(w: int)
    ensures Mul(w - 1, w + 1) == Mul(w, w) - 1
  {
    hide Mul;
    MulIs(w - 1, w + 1);
    MulIs(w, w);
    assert (w - 1) * (w + 1) == w * w - 1;
  }

  // ------ a number without a root, and an x without a point

  // (P - 1) / 4
  const QUARTER: nat := 14474011154664524427946373126085988481658748083205070504932198000989141204987

  lemma {:induction false} OddPower(n: nat)
    ensures Pow(-1, 2 * n + 1) == -1 && Pow(-1, 2 * n) == 1
  {
    hide Mul;
    Units(1, 1);
    if n > 0 {
      OddPower(n - 1);
      assert Pow(-1, 2 * n) == Mul(-1, Pow(-1, 2 * (n - 1) + 1));
      Units(1, -1);
    }
    assert Pow(-1, 2 * n + 1) == Mul(-1, Pow(-1, 2 * n));
    Units(-1, 1);
  }

  /** A root of -1 has no root itself, by its power. */
  lemma PowerOfRoot(s: int)
    requires Same(Mul(s, s), -1)
    ensures Same(Pow(s, HALF), -1) && Invertible(s)
  {
    hide Zero, Mul, Pow;
    PowOfSquare(s, QUARTER);
    PowSame(Mul(s, s), -1, QUARTER);
    OddPower(POWQ);
    Units(s, -s);
    Units(s, s);
    ZeroSum(Mul(s, s) + 1, Mul(s, s) + 1);
    assert Inverse(s, -s);
  }

  lemma NoRootOfThis()
    ensures Same(Pow(2 * U + 1, HALF), -1) && Invertible(2 * U + 1)
  {
    hide Mul, Pow, Invertible;
    var s := 2 * U + 1;
    MulIs(s, s);
    assert Zero(s * s + 1);
    PowerOfRoot(s);
  }

  const NO_POINT: int := 29579887321040479728238689710027100352826217972506746767009073029898829892622

  lemma NoPointHere()
    ensures Same(Pow(Right(NO_POINT), HALF), -1) && Invertible(Right(NO_POINT))
  {
    hide Mul, Pow, Invertible;
    var x, v := NO_POINT, Right(NO_POINT);
    MulIs(x, x);
    MulIs(x * x, x);
    MulIs(v, v);
    assert Zero(v * v + 1);
    PowerOfRoot(v);
  }
}
