/** The curve operations on arrays of limbs, in place and with their arguments aliased as
    callers do.  The field primitives stand for assembler routines: only their results modulo
    2^255 - 19 are stated. */
module Curve25519 {
  import opened Field25519
  import opened Residues

  const RADIX: int := 0x8000000000000

  /** The value of the five limbs from o on; a limb may be negative or large. */
  function Val(a: array<int>, o: nat): int
    requires o + 5 <= a.Length
    reads a
  {
    a[o] + RADIX * (a[o + 1] + RADIX * (a[o + 2] + RADIX * (a[o + 3] + RADIX * a[o + 4])))
  }

  /** Another element of the array. */
  predicate Apart(a: array<int>, o: nat, j: nat) {
    j + 5 <= a.Length && (j + 5 <= o || o + 5 <= j)
  }

  method Store(out: array<int>, o: nat, v: int)
    requires o + 5 <= out.Length
    modifies out
    ensures Val(out, o) == v
    ensures forall j: nat :: Apart(out, o, j) ==> Val(out, j) == old(Val(out, j))
  {
    var v1 := v / RADIX;
    var v2 := v1 / RADIX;
    var v3 := v2 / RADIX;
    out[o], out[o + 1], out[o + 2], out[o + 3], out[o + 4] := v % RADIX, v1 % RADIX, v2 % RADIX, v3 % RADIX, v3 / RADIX;
  }

  // ------ the field primitives

  method FieldAdd(out: array<int>, o: nat, a: array<int>, i: nat, b: array<int>, j: nat)
    requires o + 5 <= out.Length && i + 5 <= a.Length && j + 5 <= b.Length
    modifies out
    ensures Same(Val(out, o), old(Val(a, i)) + old(Val(b, j)))
    ensures forall j: nat :: Apart(out, o, j) ==> Val(out, j) == old(Val(out, j))
  {
    Reduced(Val(a, i) + Val(b, j));
    Store(out, o, (Val(a, i) + Val(b, j)) % P);
  }

  method FieldSub(out: array<int>, o: nat, a: array<int>, i: nat, b: array<int>, j: nat)
    requires o + 5 <= out.Length && i + 5 <= a.Length && j + 5 <= b.Length
    modifies out
    ensures Same(Val(out, o), old(Val(a, i)) - old(Val(b, j)))
    ensures forall j: nat :: Apart(out, o, j) ==> Val(out, j) == old(Val(out, j))
  {
    Reduced(Val(a, i) - Val(b, j));
    Store(out, o, (Val(a, i) - Val(b, j)) % P);
  }

  method FieldMul(out: array<int>, o: nat, a: array<int>, i: nat, b: array<int>, j: nat)
    requires o + 5 <= out.Length && i + 5 <= a.Length && j + 5 <= b.Length
    modifies out
    ensures Same(Val(out, o), Mul(old(Val(a, i)), old(Val(b, j))))
    ensures forall j: nat :: Apart(out, o, j) ==> Val(out, j) == old(Val(out, j))
  {
    Reduced(Mul(Val(a, i), Val(b, j)));
    Store(out, o, Mul(Val(a, i), Val(b, j)) % P);
  }

  /** Adds a small constant to the lowest limb. */
  method AddLimb(out: array<int>, o: nat, c: int)
    requires o + 5 <= out.Length
    modifies out
    ensures Val(out, o) == old(Val(out, o)) + c
    ensures forall j: nat :: Apart(out, o, j) ==> Val(out, j) == old(Val(out, j))
  {
    out[o] := out[o] + c;
  }

  method FieldSqr(out: array<int>, o: nat, a: array<int>, i: nat)
    requires o + 5 <= out.Length && i + 5 <= a.Length
    modifies out
    ensures Same(Val(out, o), Mul(old(Val(a, i)), old(Val(a, i))))
    ensures forall j: nat :: Apart(out, o, j) ==> Val(out, j) == old(Val(out, j))
  {
    FieldMul(out, o, a, i, a, i);
  }

  method FieldMulC(out: array<int>, o: nat, a: array<int>, i: nat, x: int)
    requires o + 5 <= out.Length && i + 5 <= a.Length
    modifies out
    ensures Same(Val(out, o), Mul(old(Val(a, i)), x))
    ensures forall j: nat :: Apart(out, o, j) ==> Val(out, j) == old(Val(out, j))
  {
    Reduced(Mul(Val(a, i), x));
    Store(out, o, Mul(Val(a, i), x) % P);
  }

  /** An inverse, when there is one; 0 has none and gives 0. */
  method FieldInv(out: array<int>, o: nat, a: array<int>, i: nat)
    requires o + 5 <= out.Length && i + 5 <= a.Length
    modifies out
    ensures Invertible(old(Val(a, i))) ==> Inverse(old(Val(a, i)), Val(out, o))
    ensures Same(old(Val(a, i)), 0) ==> Val(out, o) == 0
    ensures forall j: nat :: Apart(out, o, j) ==> Val(out, j) == old(Val(out, j))
  {
    var v := Val(a, i);
    InverseInRange(v);
    ZeroHasNone(v);
    if x :| 0 <= x < P && Inverse(v, x) {
      Store(out, o, x);
    } else {
      Store(out, o, 0);
    }
  }

  lemma InverseInRange(v: int)
    ensures Invertible(v) ==> exists x :: 0 <= x < P && Inverse(v, x)
  {
    hide Same, Mul;
    if Invertible(v) {
      var x :| Inverse(v, x);
      Reduced(x);
      SameSelf(v);
      SameTimes(v, v, x % P, x);
      SameTrans(Mul(v, x % P), Mul(v, x), 1);
      assert Inverse(v, x % P);
    }
  }

  lemma ZeroHasNone(v: int)
    ensures Same(v, 0) ==> !Invertible(v)
  {
    hide Mul;
    if Same(v, 0) && Invertible(v) {
      var x :| Inverse(v, x);
      ZeroTimes(v, x);
      ZeroSum(Mul(v, x), Mul(v, x) - 1);
    }
  }

  // ------ adding two points

  /** Copies five limbs. */
  method Copy(out: array<int>, o: nat, a: array<int>, i: nat)
    requires o + 5 <= out.Length && i + 5 <= a.Length && out != a
    modifies out
    ensures Val(out, o) == Val(a, i)
    ensures forall j: nat :: Apart(out, o, j) ==> Val(out, j) == old(Val(out, j))
  {
    out[o], out[o + 1], out[o + 2], out[o + 3], out[o + 4] := a[i], a[i + 1], a[i + 2], a[i + 3], a[i + 4];
  }

  /** The sum of two points with different x.  out may be a or b. */
  method CurveMul(out: array<int>, a: array<int>, b: array<int>)
    requires out.Length == a.Length == b.Length == 10
    modifies out
    ensures old(OnCurve(Val(a, 0), Val(a, 5)) && OnCurve(Val(b, 0), Val(b, 5)) && Invertible(Val(a, 0) - Val(b, 0))) ==>
      IsSum(old(Val(a, 0)), old(Val(a, 5)), old(Val(b, 0)), old(Val(b, 5)), Val(out, 0), Val(out, 5))
  {
    hide Zero, Right, Invertible, Val, Same, OnCurve, IsSum, Inverse, Mul;
    var l, m, x := new int[5], new int[5], new int[5];
    ghost var xa, ya, xb, yb := Val(a, 0), Val(a, 5), Val(b, 0), Val(b, 5);
    FieldSub(l, 0, a, 5, b, 5);
    ghost var l1 := Val(l, 0);
    FieldSub(m, 0, a, 0, b, 0);
    ghost var m1 := Val(m, 0);
    FieldInv(m, 0, m, 0);
    ghost var m2 := Val(m, 0);
    FieldMul(l, 0, l, 0, m, 0);
    ghost var l2 := Val(l, 0);
    FieldSqr(m, 0, l, 0);
    ghost var m3 := Val(m, 0);
    FieldSub(m, 0, m, 0, a, 0);
    ghost var m4 := Val(m, 0);
    FieldSub(x, 0, m, 0, b, 0);
    ghost var x1 := Val(x, 0);
    AddLimb(x, 0, -486662);
    ghost var x2 := Val(x, 0);
    FieldSub(m, 0, a, 0, x, 0);
    ghost var m5 := Val(m, 0);
    FieldMul(m, 0, l, 0, m, 0);
    ghost var m6 := Val(m, 0);
    FieldSub(out, 5, m, 0, a, 5);
    ghost var y := Val(out, 5);
    Copy(out, 0, x, 0);
    SumX(l2, xa, xb, m3, m4, x1);
    SumY(l2, xa, ya, x2, m5, m6, y);
    if OnCurve(xa, ya) && OnCurve(xb, yb) && Invertible(xa - xb) {
      Slope(xa - xb, ya - yb, l1, m1, m2, l2);
      Addition(xa, ya, xb, yb, m2, l2, x2, y);
    }
  }

  lemma SumX(l: int, xa: int, xb: int, m3: int, m4: int, x1: int)
    requires Same(m3, Mul(l, l)) && Same(m4, m3 - xa) && Same(x1, m4 - xb)
    ensures Same(x1 - A, Mul(l, l) - xa - xb - A)
  {
    hide Zero, Mul;
    ZeroSum(m3 - Mul(l, l), m4 - (m3 - xa));
    ZeroSum((m3 - Mul(l, l)) + (m4 - (m3 - xa)), x1 - (m4 - xb));
  }

  lemma SumY(l: int, xa: int, ya: int, x: int, m5: int, m6: int, y: int)
    requires Same(m5, xa - x) && Same(m6, Mul(l, m5)) && Same(y, m6 - ya)
    ensures Same(y, Mul(l, xa - x) - ya)
  {
    hide Zero, Mul;
    SameSelf(l);
    SameTimes(l, l, m5, xa - x);
    SameTrans(m6, Mul(l, m5), Mul(l, xa - x));
    ZeroSum(m6 - Mul(l, xa - x), y - (m6 - ya));
  }

  /** l is the slope, and m2 inverts the difference of the x. */
  lemma Slope(d: int, e: int, l1: int, m1: int, m2: int, l: int)
    requires Same(l1, e) && Same(m1, d) && (Invertible(m1) ==> Inverse(m1, m2)) && Same(l, Mul(l1, m2)) && Invertible(d)
    ensures Inverse(d, m2) && Same(l, Mul(e, m2))
  {
    hide Same, Mul;
    SameSym(m1, d);
    InvertibleSame(d, m1);
    SameSelf(m2);
    SameTimes(d, m1, m2, m2);
    SameTrans(Mul(d, m2), Mul(m1, m2), 1);
    SameTimes(l1, e, m2, m2);
    SameTrans(l, Mul(l1, m2), Mul(e, m2));
  }

  // ------ square roots

  method FieldPowq(out: array<int>, o: nat, a: array<int>, i: nat)
    requires o + 5 <= out.Length && i + 5 <= a.Length
    modifies out
    ensures Same(Val(out, o), Pow(old(Val(a, i)), POWQ))
    ensures forall j: nat :: Apart(out, o, j) ==> Val(out, j) == old(Val(out, j))
  {
    hide Pow;
    Reduced(Pow(Val(a, i), POWQ));
    Store(out, o, Pow(Val(a, i), POWQ) % P);
  }

  /** The root of 0 or of a square, that is of v with v^((P-1)/2) = 1; of no other number.
      The result says 0, for success, in every case. */
  method FieldSqrt(out: array<int>, o: nat, a: array<int>, i: nat) returns (ret: int)
    requires o + 5 <= out.Length && i + 5 <= a.Length
    modifies out
    ensures ret == 0
    ensures var v := old(Val(a, i)); var w := Val(out, o);
      && (Same(v, 0) || Same(Pow(v, HALF), 1) ==> Same(Mul(w, w), v))
      && (Same(Pow(v, HALF), -1) && Invertible(v) ==> !Same(Mul(w, w), v))
      && (Fermat() ==> (Same(Mul(w, w), v) <==> IsSquare(v)))
      && Same(w, RootOf(v))
    ensures forall j: nat :: Apart(out, o, j) ==> Val(out, j) == old(Val(out, j))
  {
    hide Zero, Val, Same, Inverse, Invertible, Pow, U, Mul, Factor, RootOf, Fermat, IsSquare;
    ghost var v := Val(a, i);
    var b, z := new int[5], new int[5];
    var u :=
      new int[5] [0x00070D93A507504E, 0x00006AD2FE478C4E, 0x0003F7AF4E5E8630, 0x0007C2CAD340264F, 0x00055C1924027E0E];
    LimbsOfU(u);
    FieldPowq(b, 0, a, i);
    ghost var b1 := Val(b, 0);
    FieldMul(z, 0, b, 0, a, i);
    ghost var z1 := Val(z, 0);
    FieldSqr(b, 0, b, 0);
    ghost var b2 := Val(b, 0);
    FieldMul(b, 0, b, 0, a, i);
    ghost var b3 := Val(b, 0);
    FieldMul(b, 0, b, 0, u, 0);
    ghost var b4 := Val(b, 0);
    FieldSub(b, 0, u, 0, b, 0);
    ghost var b5 := Val(b, 0);
    AddLimb(b, 0, 1);
    FieldMul(out, o, b, 0, z, 0);
    ghost var w := Val(out, o);
    ret := 0;
    SelectionIs(b3, b4, b5, z1, w);
    RootOfIs(v, b1, z1, b2, b3, w);
    RootAsGood(v, w);
    RootOfSquares(v);
    if Fermat() { RootIfSquare(v); }
  }

  lemma LimbsOfU(u: array<int>)
    requires u.Length == 5
    requires u[..]
      == [0x00070D93A507504E, 0x00006AD2FE478C4E, 0x0003F7AF4E5E8630, 0x0007C2CAD340264F, 0x00055C1924027E0E]
    ensures Val(u, 0) == U
  {
    assert u[0] == u[..][0] && u[1] == u[..][1] && u[2] == u[..][2] && u[3] == u[..][3] && u[4] == u[..][4];
  }

  // ------ expanding a point from its x

  /** Multiplies five limbs by a sign. */
  method Signed(out: array<int>, o: nat, sign: int)
    requires o + 5 <= out.Length && (sign == 1 || sign == -1)
    modifies out
    ensures Val(out, o) == sign * old(Val(out, o))
    ensures forall j: nat :: Apart(out, o, j) ==> Val(out, j) == old(Val(out, j))
  {
    ghost var v0, v1, v2, v3, v4 := out[o], out[o + 1], out[o + 2], out[o + 3], out[o + 4];
    out[o], out[o + 1], out[o + 2], out[o + 3], out[o + 4] :=
      sign * out[o], sign * out[o + 1], sign * out[o + 2], sign * out[o + 3], sign * out[o + 4];
    SignedLimbs(sign, v0, v1, v2, v3, v4);
  }

  lemma SignedLimbs(sign: int, v0: int, v1: int, v2: int, v3: int, v4: int)
    requires sign == 1 || sign == -1
    ensures sign * v0 + RADIX * (sign * v1 + RADIX * (sign * v2 + RADIX * (sign * v3 + RADIX * (sign * v4))))
         == sign * (v0 + RADIX * (v1 + RADIX * (v2 + RADIX * (v3 + RADIX * v4))))
  {
    if sign == 1 {
    } else {
    }
  }

  /** A point with the x that out holds; it is on the curve when there is one, that is when
      the right hand side is 0 or a square.  The result is 0 also when there is none. */
  method CurveExpand(out: array<int>, signBit: int) returns (r: int)
    requires out.Length == 10 && (signBit == 0 || signBit == 1)
    modifies out
    ensures r == 0 && Val(out, 0) == old(Val(out, 0))
    ensures var e := Right(old(Val(out, 0)));
      && (Same(e, 0) || Same(Pow(e, HALF), 1) ==> OnCurve(Val(out, 0), Val(out, 5)))
      && (Same(Pow(e, HALF), -1) && Invertible(e) ==> !OnCurve(Val(out, 0), Val(out, 5)))
      && (Fermat() ==> (OnCurve(Val(out, 0), Val(out, 5)) <==> exists y :: OnCurve(old(Val(out, 0)), y)))
      && Same(Val(out, 5), (1 - 2 * signBit) * RootOf(e))
  {
    hide Zero, Val, Same, Inverse, Invertible, Pow, Mul, RootOf, Fermat;
    var tmp := new int[5];
    ghost var x := Val(out, 0);
    FieldSqr(tmp, 0, out, 0);
    ghost var t1 := Val(tmp, 0);
    FieldMul(out, 5, tmp, 0, out, 0);
    ghost var y1 := Val(out, 5);
    FieldMulC(tmp, 0, tmp, 0, 486662);
    ghost var t2 := Val(tmp, 0);
    FieldAdd(out, 5, out, 5, tmp, 0);
    ghost var y2 := Val(out, 5);
    FieldAdd(out, 5, out, 5, out, 0);
    ghost var e := Val(out, 5);
    RightSide(x, t1, y1, t2, y2, e);
    r := FieldSqrt(out, 5, out, 5);
    ghost var w := Val(out, 5);
    var sign := 1 - 2 * signBit;
    Signed(out, 5, sign);
    RootOfSameNumber(e, Right(x));
    SameTrans(w, RootOf(e), RootOf(Right(x)));
    SignedRoot(x, w, sign, Val(out, 5));
    RootOfSquares(Right(x));
    if Fermat() { PointIfSquare(x); }
  }

  /** A root of the right hand side, with either sign, makes a point. */
  lemma SignedRoot(x: int, w: int, sign: int, y: int)
    requires Same(w, RootOf(Right(x))) && (sign == 1 || sign == -1) && y == sign * w
    ensures Same(y, sign * RootOf(Right(x)))
    ensures OnCurve(x, y) <==> Same(Mul(RootOf(Right(x)), RootOf(Right(x))), Right(x))
  {
    hide Zero, Mul, RootOf, Right;
    RootAsGood(Right(x), w);
    Units(w, -w);
    Units(w, w);
    ZeroSum(w - RootOf(Right(x)), w - RootOf(Right(x)));
  }

  lemma PointIfSquare(x: int)
    requires Fermat()
    ensures Same(Mul(RootOf(Right(x)), RootOf(Right(x))), Right(x)) <==> exists y :: OnCurve(x, y)
  {
    hide Same, Mul, RootOf, Right, Fermat;
    RootIfSquare(Right(x));
    if IsSquare(Right(x)) {
      var y :| Same(Mul(y, y), Right(x));
      assert OnCurve(x, y);
    }
    if y :| OnCurve(x, y) {
      assert Same(Mul(y, y), Right(x));
    }
  }

  /** Success is reported for 2 u + 1, which has no root, and for an x that no point has. */
  method FalseSuccess() returns (rootReturn: int, root: int, pointReturn: int, y: int)
    ensures rootReturn == 0 && !Same(Mul(root, root), 2 * U + 1)
    ensures pointReturn == 0 && !OnCurve(NO_POINT, y)
  {
    hide Val, Same, OnCurve, Invertible, Pow, Mul, RootOf, Right;
    var a, point := new int[5], new int[10];
    Store(a, 0, 2 * U + 1);
    rootReturn := FieldSqrt(a, 0, a, 0);
    root := Val(a, 0);
    NoRootOfThis();
    Store(point, 0, NO_POINT);
    pointReturn := CurveExpand(point, 0);
    y := Val(point, 5);
    NoPointHere();
  }

  lemma RightSide(x: int, t1: int, y1: int, t2: int, y2: int, y3: int)
    requires Same(t1, Mul(x, x)) && Same(y1, Mul(t1, x)) && Same(t2, Mul(t1, A)) && Same(y2, y1 + t2)
    requires Same(y3, y2 + x)
    ensures Same(y3, Right(x))
  {
    hide Zero, Mul;
    var q, c := Mul(x, x), Mul(Mul(x, x), x);
    SameSelf(x);
    SameSelf(A);
    SameTimes(t1, q, x, x);
    SameTimes(t1, q, A, A);
    SameTrans(y1, Mul(t1, x), c);
    SameTrans(t2, Mul(t1, A), Mul(q, A));
    Scaled(A, q, 1);
    Units(q, 1);
    ZeroSum(y1 - c, t2 - A * q);
    ZeroSum(y2 - (y1 + t2), y3 - (y2 + x));
    ZeroSum((y1 - c) + (t2 - A * q), (y2 - (y1 + t2)) + (y3 - (y2 + x)));
  }

  // ------ the end of a scalar multiplication

  /** The left hand side of the chord's equation; with the sum's x it is (yr - ya)^2. */
  function Chord(xa: int, xr: int, xra: int): int {
    Mul(Mul(xr - xa, xr - xa), xra + xr + xa + A)
  }

  /** What the ladder leaves of R and R + a: their x as fractions.  R + a has no x when R is
      the mirror image of a. */
  ghost predicate Ladder(b: array<int>, xa: int, ya: int, xr: int, yr: int, xra: int)
    requires b.Length == 20
    reads b
  {
    && Invertible(Val(b, 5)) && Same(Val(b, 0), Mul(xr, Val(b, 5)))
    && (Same(xr, xa) || (Invertible(Val(b, 15)) && Same(Val(b, 10), Mul(xra, Val(b, 15))) &&
                         Same(Chord(xa, xr, xra), Mul(yr - ya, yr - ya))))
  }

  /** From fractions to numbers: the x of R, and that of R + a. */
  method ToAffine(b: array<int>)
    requires b.Length == 20
    modifies b
    ensures forall xr, xra, xa, ya, yr :: old(Ladder(b, xa, ya, xr, yr, xra)) ==>
      Same(Val(b, 0), xr) && (Same(xr, xa) || Same(Val(b, 5), xra))
  {
    hide Zero, Val, Same, Inverse, Invertible, Mul;
    ghost var x, z, x', z' := Val(b, 0), Val(b, 5), Val(b, 10), Val(b, 15);
    FieldInv(b, 5, b, 5);
    ghost var i := Val(b, 5);
    FieldInv(b, 15, b, 15);
    ghost var i' := Val(b, 15);
    FieldMul(b, 0, b, 0, b, 5);
    FieldMul(b, 5, b, 10, b, 15);
    ghost var r, ra := Val(b, 0), Val(b, 5);
    forall xr | Invertible(z) && Same(x, Mul(xr, z))
      ensures Same(r, xr)
    {
      Fraction(x, z, i, xr, r);
    }
    forall xra | Invertible(z') && Same(x', Mul(xra, z'))
      ensures Same(ra, xra)
    {
      Fraction(x', z', i', xra, ra);
    }
  }

  lemma Fraction(x: int, z: int, i: int, q: int, r: int)
    requires Inverse(z, i) && Same(x, Mul(q, z)) && Same(r, Mul(x, i))
    ensures Same(r, q)
  {
    hide Same, Mul;
    SameSelf(i);
    SameTimes(x, Mul(q, z), i, i);
    Associate(q, z, i);
    SameSelf(q);
    SameTimes(q, q, Mul(z, i), 1);
    Units(q, q);
    SameTrans(r, Mul(x, i), Mul(q, Mul(z, i)));
    SameTrans(r, Mul(q, Mul(z, i)), q);
  }

  /** ya^2 - (xr - xa)^2 (xra + xr + xa + A), from xr in the first and xra in the second
      element of b, into its fourth. */
  method ChordTerm(b: array<int>, a: array<int>)
    requires b.Length == 20 && a.Length == 10 && a != b
    modifies b
    ensures Val(b, 0) == old(Val(b, 0))
    ensures var xr, xra, xa, ya := old(Val(b, 0)), old(Val(b, 5)), Val(a, 0), Val(a, 5);
      Same(Val(b, 15), Mul(ya, ya) - Chord(xa, xr, xra))
  {
    hide Zero, Val, Same, Mul;
    ghost var xr, xra, xa, ya := Val(b, 0), Val(b, 5), Val(a, 0), Val(a, 5);
    FieldSub(b, 10, b, 0, a, 0);
    ghost var d := Val(b, 10);
    FieldSqr(b, 10, b, 10);
    ghost var d2 := Val(b, 10);
    FieldAdd(b, 5, b, 5, b, 0);
    ghost var s1 := Val(b, 5);
    FieldAdd(b, 5, b, 5, a, 0);
    ghost var s2 := Val(b, 5);
    AddLimb(b, 5, 486662);
    FieldMul(b, 5, b, 5, b, 10);
    ghost var c := Val(b, 5);
    FieldSqr(b, 15, a, 5);
    ghost var y2 := Val(b, 15);
    FieldSub(b, 15, b, 15, b, 5);
    Term(xr, xra, xa, ya, d, d2, s1, s2, c, y2, Val(b, 15));
  }

  lemma Term(xr: int, xra: int, xa: int, ya: int, d: int, d2: int, s1: int, s2: int, c: int, y2: int, t: int)
    requires Same(d, xr - xa) && Same(d2, Mul(d, d)) && Same(s1, xra + xr) && Same(s2, s1 + xa)
    requires Same(c, Mul(s2 + A, d2)) && Same(y2, Mul(ya, ya)) && Same(t, y2 - c)
    ensures Same(t, Mul(ya, ya) - Chord(xa, xr, xra))
  {
    hide Zero, Mul;
    var e, s := xr - xa, xra + xr + xa + A;
    SameSquares(d, e);
    SameTrans(d2, Mul(d, d), Mul(e, e));
    ZeroSum(s2 - (s1 + xa), s1 - (xra + xr));
    SameTimes(s2 + A, s, d2, Mul(e, e));
    Commute(s, Mul(e, e));
    SameTrans(c, Mul(s2 + A, d2), Mul(s, Mul(e, e)));
    ZeroSum(y2 - Mul(ya, ya), c - Chord(xa, xr, xra));
    ZeroSum(t - (y2 - c), (y2 - Mul(ya, ya)) - (c - Chord(xa, xr, xra)));
  }

  /** The right hand side at the first element of b, added to the fourth. */
  method AddRightSide(b: array<int>)
    requires b.Length == 20
    modifies b
    ensures Val(b, 0) == old(Val(b, 0))
    ensures Same(Val(b, 15), old(Val(b, 15)) + Right(old(Val(b, 0))))
  {
    hide Zero, Val, Same, Right, Mul;
    ghost var x, t := Val(b, 0), Val(b, 15);
    FieldSqr(b, 10, b, 0);
    ghost var t1 := Val(b, 10);
    FieldMul(b, 5, b, 10, b, 0);
    ghost var y1 := Val(b, 5);
    FieldMulC(b, 10, b, 10, 486662);
    ghost var t2 := Val(b, 10);
    FieldAdd(b, 5, b, 5, b, 10);
    ghost var y2 := Val(b, 5);
    FieldAdd(b, 5, b, 5, b, 0);
    ghost var e := Val(b, 5);
    RightSide(x, t1, y1, t2, y2, e);
    FieldAdd(b, 15, b, 15, b, 5);
    AddSame(Val(b, 15), t, e, Right(x));
  }

  lemma AddSame(r: int, t: int, e: int, v: int)
    requires Same(r, t + e) && Same(e, v)
    ensures Same(r, t + v)
  {
    hide Zero;
    ZeroSum(r - (t + e), e - v);
  }

  /** Doubles five limbs into another array. */
  method Doubled(out: array<int>, o: nat, a: array<int>, i: nat)
    requires o + 5 <= out.Length && i + 5 <= a.Length && out != a
    modifies out
    ensures Val(out, o) == 2 * Val(a, i)
    ensures forall j: nat :: Apart(out, o, j) ==> Val(out, j) == old(Val(out, j))
  {
    out[o], out[o + 1], out[o + 2], out[o + 3], out[o + 4] :=
      2 * a[i], 2 * a[i + 1], 2 * a[i + 2], 2 * a[i + 3], 2 * a[i + 4];
  }

  /** The point R from what the ladder leaves in b.  Its y is right unless R is the mirror
      image of a, and then it is a's. */
  method CurvePower(out: array<int>, a: array<int>, b: array<int>, ghost xr: int, ghost yr: int, ghost xra: int)
    requires out.Length == 10 && a.Length == 10 && b.Length == 20 && out != b && a != b
    requires OnCurve(Val(a, 0), Val(a, 5)) && Invertible(2 * Val(a, 5)) && OnCurve(xr, yr)
    requires Ladder(b, Val(a, 0), Val(a, 5), xr, yr, xra)
    modifies out, b
    ensures Same(Val(out, 0), xr)
    ensures var xa, ya := old(Val(a, 0)), old(Val(a, 5));
      && (Same(Val(out, 5), yr) <==> !(Same(xr, xa) && !Same(yr, ya)))
      && (Same(xr, xa) ==> Same(Val(out, 5), ya))
  {
    hide Zero, Val, Same, Inverse, Invertible, OnCurve, Right, Ladder, Mul, Chord;
    ghost var xa, ya := Val(a, 0), Val(a, 5);
    LadderKnown(b, xa, ya, xr, yr, xra);
    ToAffine(b);
    ghost var r, ra := Val(b, 0), Val(b, 5);
    ChordTerm(b, a);
    ghost var t := Val(b, 15);
    AddRightSide(b);
    ghost var e := Val(b, 15);
    Doubled(b, 5, a, 5);
    FieldInv(b, 5, b, 5);
    ghost var i := Val(b, 5);
    FieldMul(out, 5, b, 5, b, 15);
    Copy(out, 0, b, 0);
    ghost var y := Val(out, 5);
    RecoveredY(xa, ya, xr, yr, xra, r, ra, t, e, i, y);
  }

  // y of the base point
  const BASE_Y: int := 14781619447589544791020593568409986887264606134616475288964881837755586237401

  /** With R the mirror image of the base point the y that is returned is wrong. */
  method WrongMirror() returns (y: int)
    ensures OnCurve(9, BASE_Y) && OnCurve(9, -BASE_Y) && Same(y, BASE_Y) && !Same(y, -BASE_Y)
  {
    hide Zero, Val, Same, Inverse, Invertible, OnCurve, Right, Mul, Chord;
    var a, b, out := new int[10], new int[20], new int[10];
    Store(a, 0, 9);
    Store(a, 5, BASE_Y);
    Store(b, 0, 9);
    Store(b, 5, 1);
    BasePoint();
    SameSelf(9);
    BaseLadder(b, 9, BASE_Y);
    CurvePower(out, a, b, 9, -BASE_Y, 0);
    y := Val(out, 5);
    SameEither(y, -BASE_Y, BASE_Y);
    SameSym(-BASE_Y, BASE_Y);
  }

  lemma BasePoint()
    ensures OnCurve(9, BASE_Y) && OnCurve(9, -BASE_Y) && Invertible(2 * BASE_Y) && !Same(-BASE_Y, BASE_Y)
    ensures Inverse(1, 1)
  {
    hide Mul;
    var i := 47153247641976783235043978286008082807854094794263057259831138242664083745149;
    MulIs(9, 9);
    MulIs(81, 9);
    MulIs(BASE_Y, BASE_Y);
    MulIs(-BASE_Y, -BASE_Y);
    MulIs(2 * BASE_Y, i);
    MulIs(1, 1);
    assert Inverse(2 * BASE_Y, i);
  }

  lemma BaseLadder(b: array<int>, x: int, y: int)
    requires b.Length == 20 && Val(b, 0) == x && Val(b, 5) == 1 && Inverse(1, 1)
    ensures Ladder(b, x, y, x, -y, 0)
  {
    hide Val, Inverse, Mul;
    Units(x, 1);
    SameSelf(x);
  }

  lemma LadderKnown(b: array<int>, xa: int, ya: int, xr: int, yr: int, xra: int)
    requires b.Length == 20 && Ladder(b, xa, ya, xr, yr, xra)
    ensures Same(xr, xa) || Same(Chord(xa, xr, xra), Mul(yr - ya, yr - ya))
  {
  }

  lemma RecoveredY(xa: int, ya: int, xr: int, yr: int, xra: int, r: int, ra: int, t: int, e: int, i: int, y: int)
    requires OnCurve(xa, ya) && OnCurve(xr, yr) && Inverse(2 * ya, i) && Same(r, xr)
    requires Same(xr, xa) || (Same(ra, xra) && Same(Chord(xa, xr, xra), Mul(yr - ya, yr - ya)))
    requires Same(t, Mul(ya, ya) - Chord(xa, r, ra)) && Same(e, t + Right(r)) && Same(y, Mul(i, e))
    ensures Same(y, yr) <==> !(Same(xr, xa) && !Same(yr, ya))
    ensures Same(xr, xa) ==> Same(y, ya)
  {
    hide Zero, Right, Inverse, Mul, Chord;
    var c := Chord(xa, r, ra);
    RightSame(r, xr);
    SameSym(Right(r), Right(xr));
    SameTrans(Mul(yr, yr), Right(xr), Right(r));
    SameAsPower(r, xr, xa);
    ChordKnown(xa, ya, xr, yr, xra, r, ra);
    ZeroSum(e - (t + Right(r)), t - (Mul(ya, ya) - c));
    SameSelf(i);
    SameTimes(i, i, e, Right(r) + Mul(ya, ya) - c);
    SameTrans(y, Mul(i, e), Mul(i, Right(r) + Mul(ya, ya) - c));
    Recovery(xa, ya, r, yr, c, i, y);
  }

  lemma ChordKnown(xa: int, ya: int, xr: int, yr: int, xra: int, r: int, ra: int)
    requires Same(r, xr)
    requires Same(xr, xa) || (Same(ra, xra) && Same(Chord(xa, xr, xra), Mul(yr - ya, yr - ya)))
    ensures var c := Chord(xa, r, ra);
      if Same(r, xa) then Zero(c) else Same(c, Mul(yr - ya, yr - ya))
  {
    hide Zero, Mul;
    SameAsPower(r, xr, xa);
    if Same(r, xa) {
      ZeroTimes(r - xa, r - xa);
      ZeroTimes(Mul(r - xa, r - xa), ra + r + xa + A);
    } else {
      ChordSame(xa, xr, xra, r, ra);
      SameTrans(Chord(xa, r, ra), Chord(xa, xr, xra), Mul(yr - ya, yr - ya));
    }
  }

  lemma ChordSame(xa: int, xr: int, xra: int, r: int, ra: int)
    requires Same(r, xr) && Same(ra, xra)
    ensures Same(Chord(xa, r, ra), Chord(xa, xr, xra))
  {
    hide Zero, Mul;
    SameSquares(r - xa, xr - xa);
    ZeroSum(r - xr, ra - xra);
    SameTimes(Mul(r - xa, r - xa), Mul(xr - xa, xr - xa), ra + r + xa + A, xra + xr + xa + A);
  }

  /** The base point is on the curve. */
  lemma GeneratorOnCurve(generator: array<int>)
    requires generator.Length == 10
    requires generator[..]
      == [9, 0, 0, 0, 0, 0x0009C5A27ECED3D9, 0x0007CDAF8C36453C, 0x000523453248F535, 0x00035A700F6E963B,
        0x00020AE19A1B8A08]
    ensures OnCurve(Val(generator, 0), Val(generator, 5))
  {
    hide Mul;
    var y := Val(generator, 5);
    assert forall k :: 0 <= k < 10 ==> generator[k] == generator[..][k];
    assert Val(generator, 0) == 9;
    MulIs(y, y);
    MulIs(9, 9);
    MulIs(81, 9);
  }
}
