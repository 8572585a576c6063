/** Arithmetic modulo 2^255 - 19 and the polynomial identities behind the curve operations.
    Field elements are integers; two of them are the same when they differ by a multiple of
    the modulus. */
module Field25519 {
  import opened Arith

  const P: int := 57896044618658097711785492504343953926634992332820282019728792003956564819949

  /** The product, by repeated addition: proofs use its laws, listed below. */
  function Mul(a: int, b: int): int
    decreases if b < 0 then -b else b
  {
    if b == 0 then 0 else if b > 0 then Mul(a, b - 1) + a else Mul(a, b + 1) - a
  }

  lemma {:induction false} MulIs(a: int, b: int)
    ensures Mul(a, b) == a * b
    decreases if b < 0 then -b else b
  {
    if b > 0 { MulIs(a, b - 1); }
    if b < 0 { MulIs(a, b + 1); }
  }

  lemma Commute(a: int, b: int)
    ensures Mul(a, b) == Mul(b, a)
  {
    MulIs(a, b);
    MulIs(b, a);
  }

  lemma Associate(a: int, b: int, c: int)
    ensures Mul(Mul(a, b), c) == Mul(a, Mul(b, c))
  {
    hide Mul;
    MulIs(a, b);
    MulIs(b, c);
    MulIs(a * b, c);
    MulIs(a, b * c);
  }

  lemma Distribute(a: int, b: int, c: int)
    ensures Mul(a + b, c) == Mul(a, c) + Mul(b, c) && Mul(c, a + b) == Mul(c, a) + Mul(c, b)
    ensures Mul(a - b, c) == Mul(a, c) - Mul(b, c) && Mul(c, a - b) == Mul(c, a) - Mul(c, b)
  {
    hide Mul;
    MulIs(a, c);
    MulIs(b, c);
    MulIs(a + b, c);
    MulIs(a - b, c);
    MulIs(c, a);
    MulIs(c, b);
    MulIs(c, a + b);
    MulIs(c, a - b);
  }

  lemma Units(a: int, b: int)
    ensures Mul(a, 1) == a && Mul(1, a) == a && Mul(a, 0) == 0 && Mul(0, a) == 0
    ensures Mul(-a, b) == -Mul(a, b) && Mul(a, -b) == -Mul(a, b)
  {
    hide Mul;
    MulIs(a, 1);
    MulIs(1, a);
    MulIs(a, 0);
    MulIs(0, a);
    MulIs(-a, b);
    MulIs(a, -b);
    MulIs(a, b);
  }

  lemma Scaled(k: int, a: int, b: int)
    ensures Mul(k * a, b) == k * Mul(a, b) && Mul(a, k * b) == k * Mul(a, b)
  {
    hide Mul;
    MulIs(k * a, b);
    MulIs(a, k * b);
    MulIs(a, b);
    ScaledTimes(k, a, b);
  }

  lemma ScaledTimes(k: int, a: int, b: int)
    ensures (k * a) * b == k * (a * b) && a * (k * b) == k * (a * b)
  {
  }

  // ------ residues

  predicate Zero(v: int) {
    v % P == 0
  }

  predicate Same(a: int, b: int) {
    Zero(a - b)
  }

  lemma MultipleIsZero(v: int, k: int)
    requires v == k * P
    ensures Zero(v)
  {
    Division(v, k, 0, P);
  }

  lemma ZeroSum(a: int, b: int)
    requires Zero(a) && Zero(b)
    ensures Zero(a + b) && Zero(a - b) && Zero(-a)
  {
    MultipleIsZero(a + b, a / P + b / P);
    MultipleIsZero(a - b, a / P - b / P);
    MultipleIsZero(-a, -(a / P));
  }

  lemma ZeroTimes(a: int, b: int)
    requires Zero(a)
    ensures Zero(Mul(a, b)) && Zero(Mul(b, a))
  {
    hide Mul;
    Commute(a, b);
    Scaled(P, a / P, b);
    MultipleIsZero(Mul(a, b), Mul(a / P, b));
  }

  /** A remainder stands for the number. */
  lemma Reduced(v: int)
    ensures Same(v % P, v) && 0 <= v % P < P
  {
    MultipleIsZero(v % P - v, -(v / P));
  }

  lemma SameSelf(a: int)
    ensures Same(a, a)
  {
  }

  lemma SameSym(a: int, b: int)
    ensures Same(a, b) <==> Same(b, a)
  {
    hide Zero;
    if Same(a, b) { ZeroSum(a - b, a - b); }
    if Same(b, a) { ZeroSum(b - a, b - a); }
  }

  lemma SameTrans(a: int, b: int, c: int)
    requires Same(a, b) && Same(b, c)
    ensures Same(a, c)
  {
    hide Zero;
    ZeroSum(a - b, b - c);
  }

  lemma SameTimes(a: int, a': int, b: int, b': int)
    requires Same(a, a') && Same(b, b')
    ensures Same(Mul(a, b), Mul(a', b'))
  {
    hide Zero, Mul;
    ZeroTimes(a - a', b);
    ZeroTimes(b - b', a');
    ZeroSum(Mul(a - a', b), Mul(a', b - b'));
    Distribute(a, a', b);
    Distribute(b, b', a');
  }

  lemma SameSquares(a: int, b: int)
    requires Same(a, b)
    ensures Same(Mul(a, a), Mul(b, b))
  {
    SameTimes(a, b, a, b);
  }

  /** i is an inverse of a. */
  predicate Inverse(a: int, i: int) {
    Same(Mul(a, i), 1)
  }

  /** What has an inverse can be cancelled. */
  lemma Cancel(a: int, i: int, v: int)
    requires Inverse(a, i) && Zero(Mul(a, v))
    ensures Zero(v)
  {
    hide Zero, Mul;
    ZeroTimes(Mul(a, v), i);
    ZeroTimes(Mul(a, i) - 1, v);
    ZeroSum(Mul(i, Mul(a, v)), Mul(Mul(a, i) - 1, v));
    Distribute(Mul(a, i), 1, v);
    Units(v, v);
    Commute(a, i);
    Associate(i, a, v);
  }

  // ------ the curve y^2 = x^3 + 486662 x^2 + x

  const A: int := 486662

  function Right(x: int): int {
    Mul(Mul(x, x), x) + A * Mul(x, x) + x
  }

  ghost predicate OnCurve(x: int, y: int) {
    Same(Mul(y, y), Right(x))
  }

  /** The line with slope l through (xa, ya). */
  function Line(l: int, xa: int, ya: int, x: int): int {
    Mul(l, x - xa) + ya
  }

  /** What is left of the cubic minus the line's square when the root xa is divided out. */
  function Quotient(l: int, xa: int, ya: int, x: int): int {
    Mul(x, x) + Mul(x, xa) + Mul(xa, xa) + A * (x + xa) + 1 - Mul(Mul(l, l), x - xa) - 2 * Mul(l, ya)
  }

  lemma DividedOnce(l: int, xa: int, ya: int, x: int)
    ensures Mul(x - xa, Quotient(l, xa, ya, x))
         == (Right(x) - Mul(Line(l, xa, ya, x), Line(l, xa, ya, x))) - (Right(xa) - Mul(ya, ya))
  {
    hide Mul;
    var q, line := Quotient(l, xa, ya, x), Line(l, xa, ya, x);
    MulIs(x, x);
    MulIs(x, xa);
    MulIs(xa, xa);
    MulIs(l, l);
    MulIs(l * l, x - xa);
    MulIs(l, ya);
    MulIs(l, x - xa);
    MulIs(x * x, x);
    MulIs(xa * xa, xa);
    MulIs(ya, ya);
    MulIs(line, line);
    MulIs(x - xa, q);
    Division1(l, xa, ya, x);
  }

  lemma Division1(l: int, xa: int, ya: int, x: int)
    ensures (x - xa) * (x * x + x * xa + xa * xa + A * (x + xa) + 1 - l * l * (x - xa) - 2 * (l * ya))
         == (x * x * x + A * (x * x) + x - (l * (x - xa) + ya) * (l * (x - xa) + ya))
            - (xa * xa * xa + A * (xa * xa) + xa - ya * ya)
  {
    var d := x - xa;
    CubicPart(x, xa);
    LinePart(l, d, ya);
    ThreeParts(d, x * x + x * xa + xa * xa + A * (x + xa) + 1, l * l * d, 2 * (l * ya));
  }

  lemma CubicPart(x: int, xa: int)
    ensures (x - xa) * (x * x + x * xa + xa * xa + A * (x + xa) + 1)
         == (x * x * x + A * (x * x) + x) - (xa * xa * xa + A * (xa * xa) + xa)
  {
    var d := x - xa;
    Cubes(x, xa);
    Squares(x, xa);
    ThreeSums(d, x * x + x * xa + xa * xa, A * (x + xa));
  }

  lemma Cubes(x: int, xa: int)
    ensures (x - xa) * (x * x + x * xa + xa * xa) == x * x * x - xa * xa * xa
  {
  }

  lemma Squares(x: int, xa: int)
    ensures (x - xa) * (A * (x + xa)) == A * (x * x) - A * (xa * xa)
  {
  }

  lemma ThreeSums(d: int, p: int, q: int)
    ensures d * (p + q + 1) == d * p + d * q + d
  {
  }

  lemma LinePart(l: int, d: int, ya: int)
    ensures d * (l * l * d) + d * (2 * (l * ya)) == (l * d + ya) * (l * d + ya) - ya * ya
  {
  }

  lemma ThreeParts(d: int, p: int, q: int, r: int)
    ensures d * (p - q - r) == d * p - (d * q + d * r)
  {
  }

  lemma DividedTwice(l: int, xa: int, ya: int, xb: int, x: int)
    ensures Quotient(l, xa, ya, x) - Quotient(l, xa, ya, xb) == Mul(x - xb, x + xb + xa + A - Mul(l, l))
  {
    hide Mul;
    MulIs(x, x);
    MulIs(x, xa);
    MulIs(xa, xa);
    MulIs(l, l);
    MulIs(l * l, x - xa);
    MulIs(xb, xb);
    MulIs(xb, xa);
    MulIs(l * l, xb - xa);
    MulIs(x - xb, x + xb + xa + A - l * l);
    Division2(l * l, xa, xb, x);
  }

  lemma Division2(m: int, xa: int, xb: int, x: int)
    ensures (x * x + x * xa + A * (x + xa) - m * (x - xa)) - (xb * xb + xb * xa + A * (xb + xa) - m * (xb - xa))
         == (x - xb) * (x + xb + xa + A - m)
  {
  }

  /** Where the quotient vanishes, line and curve meet. */
  lemma Meets(l: int, xa: int, ya: int, x: int)
    requires OnCurve(xa, ya) && Zero(Quotient(l, xa, ya, x))
    ensures OnCurve(x, Line(l, xa, ya, x))
  {
    hide Zero, Quotient, Mul;
    ZeroTimes(Quotient(l, xa, ya, x), x - xa);
    DividedOnce(l, xa, ya, x);
    ZeroSum(Mul(ya, ya) - Right(xa), Mul(x - xa, Quotient(l, xa, ya, x)));
  }

  /** The line through two points of the curve meets it at the second one too. */
  lemma SecondPoint(l: int, xa: int, ya: int, xb: int, yb: int, i: int)
    requires OnCurve(xa, ya) && OnCurve(xb, yb) && Inverse(xa - xb, i) && Same(Mul(l, xa - xb), ya - yb)
    ensures Zero(Quotient(l, xa, ya, xb))
  {
    hide Zero, Quotient, Right, Mul;
    var line, q := Line(l, xa, ya, xb), Quotient(l, xa, ya, xb);
    Units(l, xa - xb);
    assert line - yb == -(Mul(l, xa - xb) - (ya - yb));
    ZeroSum(Mul(l, xa - xb) - (ya - yb), Mul(l, xa - xb) - (ya - yb));
    SameSquares(line, yb);
    DividedOnce(l, xa, ya, xb);
    ZeroSum(Mul(line, line) - Mul(yb, yb), Mul(yb, yb) - Right(xb));
    ZeroSum(Mul(line, line) - Right(xb), Mul(ya, ya) - Right(xa));
    Units(xa - xb, q);
    Cancel(xa - xb, i, q);
  }

  /** (x, y) is the sum of the points a and b with different x: on the curve, its mirror
      image is on their line, and the three x add up as the line's slope demands. */
  ghost predicate IsSum(xa: int, ya: int, xb: int, yb: int, x: int, y: int) {
    && OnCurve(x, y)
    && Same(Mul(xa - xb, y + ya), Mul(ya - yb, xa - x))
    && Same(Mul(Mul(xa - xb, xa - xb), x + xa + xb + A), Mul(ya - yb, ya - yb))
  }

  /** The addition formulas give the sum. */
  lemma Addition(xa: int, ya: int, xb: int, yb: int, i: int, l: int, x: int, y: int)
    requires OnCurve(xa, ya) && OnCurve(xb, yb) && Inverse(xa - xb, i)
    requires Same(l, Mul(ya - yb, i))
    requires Same(x, Mul(l, l) - xa - xb - A) && Same(y, Mul(l, xa - x) - ya)
    ensures IsSum(xa, ya, xb, yb, x, y)
  {
    hide Zero, Quotient, Right, Inverse, Mul;
    SlopeTimes(xa - xb, ya - yb, i, l);
    SecondPoint(l, xa, ya, xb, yb, i);
    DividedTwice(l, xa, ya, xb, x);
    ZeroTimes(x + xb + xa + A - Mul(l, l), x - xb);
    ZeroSum(Quotient(l, xa, ya, xb), Mul(x - xb, x + xb + xa + A - Mul(l, l)));
    Meets(l, xa, ya, x);
    Units(l, x - xa);
    MirrorSquare(Line(l, xa, ya, x), y, Right(x));
    MirrorOnLine(xa - xb, ya - yb, l, xa - x, y, ya);
    ThirdX(xa - xb, ya - yb, l, x + xa + xb + A);
  }

  lemma SlopeTimes(d: int, e: int, i: int, l: int)
    requires Inverse(d, i) && Same(l, Mul(e, i))
    ensures Same(Mul(l, d), e)
  {
    hide Same, Mul;
    SameSelf(d);
    SameSelf(e);
    SameTimes(l, Mul(e, i), d, d);
    SameTimes(e, e, Mul(d, i), 1);
    Units(e, e);
    Associate(e, i, d);
    Commute(i, d);
    SameTrans(Mul(l, d), Mul(e, Mul(d, i)), e);
  }

  lemma MirrorSquare(line: int, y: int, r: int)
    requires Same(Mul(line, line), r) && Same(y, -line)
    ensures Same(Mul(y, y), r)
  {
    hide Zero, Mul;
    SameSquares(y, -line);
    Units(line, -line);
    Units(line, line);
    SameTrans(Mul(y, y), Mul(line, line), r);
  }

  lemma MirrorOnLine(d: int, e: int, l: int, m: int, y: int, ya: int)
    requires Same(Mul(l, d), e) && Same(y, Mul(l, m) - ya)
    ensures Same(Mul(d, y + ya), Mul(e, m))
  {
    hide Zero, Mul;
    ZeroTimes(y + ya - Mul(l, m), d);
    ZeroTimes(Mul(l, d) - e, m);
    ZeroSum(Mul(d, y + ya - Mul(l, m)), Mul(Mul(l, d) - e, m));
    Distribute(y + ya, Mul(l, m), d);
    Distribute(Mul(l, d), e, m);
    Commute(l, d);
    Associate(d, l, m);
  }

  lemma ThirdX(d: int, e: int, l: int, s: int)
    requires Same(Mul(l, d), e) && Same(s, Mul(l, l))
    ensures Same(Mul(Mul(d, d), s), Mul(e, e))
  {
    hide Zero, Mul;
    SameSelf(Mul(d, d));
    SameTimes(Mul(d, d), Mul(d, d), s, Mul(l, l));
    SameSquares(Mul(l, d), e);
    SquareOfProduct(l, d);
    SameTrans(Mul(Mul(d, d), s), Mul(Mul(d, d), Mul(l, l)), Mul(e, e));
  }

  lemma SquareOfProduct(l: int, d: int)
    ensures Mul(Mul(d, d), Mul(l, l)) == Mul(Mul(l, d), Mul(l, d))
  {
    hide Mul;
    Associate(d, d, Mul(l, l));
    Associate(d, l, l);
    Commute(Mul(d, l), l);
    Commute(d, l);
    Associate(d, l, Mul(d, l));
  }

  // ------ recovering y

  /** From the x of R, the chord term c, and the point a, the y of R: the formula is right
      unless R is the mirror image of a, and then it gives y of a. */
  lemma Recovery(xa: int, ya: int, xr: int, yr: int, c: int, i: int, y: int)
    requires OnCurve(xa, ya) && OnCurve(xr, yr) && Inverse(2 * ya, i)
    requires if Same(xr, xa) then Zero(c) else Same(c, Mul(yr - ya, yr - ya))
    requires Same(y, Mul(i, Right(xr) + Mul(ya, ya) - c))
    ensures Same(y, yr) <==> !(Same(xr, xa) && !Same(yr, ya))
    ensures Same(xr, xa) ==> Same(y, ya)
  {
    hide Zero, Right, Inverse, Mul;
    if Same(xr, xa) {
      RightSame(xr, xa);
      AtMirror(ya, Right(xr), Right(xa), c, i, y);
      SameEither(y, yr, ya);
    } else {
      Elsewhere(ya, yr, Right(xr), c, i, y);
    }
  }

  lemma AtMirror(ya: int, r: int, ra: int, c: int, i: int, y: int)
    requires Same(Mul(ya, ya), ra) && Same(r, ra) && Zero(c) && Inverse(2 * ya, i)
    requires Same(y, Mul(i, r + Mul(ya, ya) - c))
    ensures Same(y, ya)
  {
    hide Zero, Inverse, Mul;
    ZeroSum(r - ra, c);
    ZeroSum((r - ra) - c, Mul(ya, ya) - ra);
    Scaled(2, ya, ya);
    RecoverValue(2 * ya, i, r + Mul(ya, ya) - c, ya, y);
  }

  lemma Elsewhere(ya: int, yr: int, r: int, c: int, i: int, y: int)
    requires Same(Mul(yr, yr), r) && Same(c, Mul(yr - ya, yr - ya)) && Inverse(2 * ya, i)
    requires Same(y, Mul(i, r + Mul(ya, ya) - c))
    ensures Same(y, yr)
  {
    hide Zero, Inverse, Mul;
    ZeroSum(c - Mul(yr - ya, yr - ya), Mul(yr, yr) - r);
    SquareOfDifference(yr, ya);
    ZeroSum((c - Mul(yr - ya, yr - ya)) + (Mul(yr, yr) - r), 0);
    Scaled(2, ya, yr);
    RecoverValue(2 * ya, i, r + Mul(ya, ya) - c, yr, y);
  }

  lemma SquareOfDifference(yr: int, ya: int)
    ensures Mul(yr - ya, yr - ya) == Mul(yr, yr) - 2 * Mul(ya, yr) + Mul(ya, ya)
  {
    hide Mul;
    Distribute(yr, ya, yr - ya);
    Distribute(yr, ya, yr);
    Distribute(yr, ya, ya);
    Commute(yr, ya);
  }

  lemma RecoverValue(w: int, i: int, e: int, t: int, y: int)
    requires Inverse(w, i) && Same(e, Mul(w, t)) && Same(y, Mul(i, e))
    ensures Same(y, t)
  {
    hide Same, Mul;
    SameSelf(i);
    SameSelf(t);
    SameTimes(i, i, e, Mul(w, t));
    SameTimes(Mul(w, i), 1, t, t);
    Units(t, t);
    Commute(w, i);
    Associate(i, w, t);
    SameTrans(y, Mul(i, e), Mul(i, Mul(w, t)));
    SameTrans(y, Mul(i, Mul(w, t)), t);
  }

  lemma RightSame(x: int, x': int)
    requires Same(x, x')
    ensures Same(Right(x), Right(x'))
  {
    hide Zero, Mul;
    SameSquares(x, x');
    SameTimes(Mul(x, x), Mul(x', x'), x, x');
    ScaledZero(Mul(x, x) - Mul(x', x'));
    ZeroSum(Mul(Mul(x, x), x) - Mul(Mul(x', x'), x'), A * (Mul(x, x) - Mul(x', x')));
    ZeroSum((Mul(Mul(x, x), x) - Mul(Mul(x', x'), x')) + A * (Mul(x, x) - Mul(x', x')), x - x');
  }

  lemma ScaledZero(v: int)
    requires Zero(v)
    ensures Zero(A * v)
  {
    MultipleIsZero(A * v, A * (v / P));
  }

  lemma SameEither(y: int, yr: int, ya: int)
    requires Same(y, ya)
    ensures Same(y, yr) <==> Same(yr, ya)
  {
    hide Zero;
    SameSym(y, ya);
    SameSym(y, yr);
    SameSym(yr, ya);
    if Same(y, yr) { SameTrans(yr, y, ya); }
    if Same(yr, ya) { SameTrans(y, ya, yr); }
  }

  // ------ square roots

  function Pow(a: int, n: nat): int {
    if n == 0 then 1 else Mul(a, Pow(a, n - 1))
  }

  lemma {:induction false} PowSum(a: int, m: nat, n: nat)
    ensures Pow(a, m + n) == Mul(Pow(a, m), Pow(a, n))
  {
    hide Mul;
    if m > 0 {
      PowSum(a, m - 1, n);
      Associate(a, Pow(a, m - 1), Pow(a, n));
    } else {
      Units(Pow(a, n), 1);
    }
  }

  // u as its five limbs say; 2 u + 1 squared is -1
  const U: int := 0x00070D93A507504E + 0x8000000000000 * (0x00006AD2FE478C4E + 0x8000000000000 * (0x0003F7AF4E5E8630
                  + 0x8000000000000 * (0x0007C2CAD340264F + 0x8000000000000 * 0x00055C1924027E0E)))

  /** 2 u^2 + 2 u + 1 */
  function Root(): int {
    2 * Mul(U, U) + 2 * U + 1
  }

  lemma RootOfMinusOne()
    ensures Zero(Root())
  {
    hide Mul;
    MulIs(U, U);
    assert Zero(2 * (U * U) + 2 * U + 1);
  }

  /** 1 + u - u b */
  function Factor(b: int): int {
    1 + U - Mul(U, b)
  }

  /** (b^2 - 1) (u^2 b + 1): how far the square of the selected value is from a, per a. */
  function Gap(b: int): int {
    Mul(Mul(b, b) - 1, Mul(Mul(U, U), b) + 1)
  }

  lemma SelectionGap(b: int)
    ensures Mul(Mul(Factor(b), Factor(b)), b) == 1 + Gap(b) + Mul(Root(), b - Mul(b, b))
  {
    hide Mul, U;
    var u, v, c := U, U * U, b * b;
    MulIs(u, u);
    MulIs(b, b);
    Commute(u, b);
    MulIs(b, u);
    MulIs(v, b);
    MulIs(c - 1, v * b + 1);
    MulIs(2 * v + 2 * u + 1, b - c);
    MulIs(Factor(b), Factor(b));
    MulIs((1 + u - b * u) * (1 + u - b * u), b);
    GapWith(u, b);
  }

  lemma GapWith(u: int, b: int)
    ensures (1 + u - b * u) * (1 + u - b * u) * b - 1
         == (b * b - 1) * (u * u * b + 1) + (2 * (u * u) + 2 * u + 1) * (b - b * b)
  {
    SquareOfFactor(u, b);
    GapExpanded(u, u * u, b);
  }

  lemma SquareOfFactor(u: int, b: int)
    ensures (1 + u - b * u) * (1 + u - b * u) == 1 + 2 * u + u * u - 2 * (b * u) - 2 * (b * (u * u)) + b * b * (u * u)
  {
    var q := b * u;
    assert (1 + u - q) * (1 + u - q) == (1 + 2 * u + u * u) - 2 * (q + q * u) + q * q;
    assert q * u == b * (u * u) && q * q == b * b * (u * u);
  }

  lemma Regroup(a: int, b: int, c: int)
    ensures (a * b) * c == (a * c) * b && a * c == c * a
  {
  }

  lemma GapExpanded(u: int, v: int, b: int)
    ensures (1 + 2 * u + v - 2 * (b * u) - 2 * (b * v) + b * b * v) * b - 1
         == (b * b - 1) * (v * b + 1) + (2 * v + 2 * u + 1) * (b - b * b)
  {
    var c := b * b;
    SixTerms(u, v, b * u, b * v, c * v, b);
    Regroup(b, u, b);
    Regroup(b, v, b);
    Regroup(c, v, b);
    ProductOfSums(c, v * b);
    SumTimesDifference(v, u, b, c);
    Regroup(c, b, v);
    Regroup(v, b, c);
  }

  lemma SixTerms(u: int, v: int, p: int, q: int, r: int, b: int)
    ensures (1 + 2 * u + v - 2 * p - 2 * q + r) * b == b + 2 * (u * b) + v * b - 2 * (p * b) - 2 * (q * b) + r * b
  {
  }

  lemma ProductOfSums(c: int, q: int)
    ensures (c - 1) * (q + 1) == c * q + c - q - 1
  {
  }

  lemma SumTimesDifference(v: int, u: int, b: int, c: int)
    ensures (2 * v + 2 * u + 1) * (b - c) == 2 * (v * b) - 2 * (v * c) + 2 * (u * b) - 2 * (u * c) + b - c
  {
  }

  /** out squared is a when a is 0 or a^r squared is 1; when that is -1, it is not. */
  lemma SquareRoot(a: int, b: int, z: int, out: int)
    requires Same(Mul(z, z), Mul(b, a)) && Same(out, Mul(Factor(b), z))
    ensures Same(a, 0) || Same(Mul(b, b), 1) ==> Same(Mul(out, out), a)
    ensures forall i :: Same(Mul(b, b), -1) && Inverse(a, i) ==> !Same(Mul(out, out), a)
  {
    hide Zero, U, Mul, Factor, Gap;
    GapOfSquare(a, b, z, out);
    var gap, d := Gap(b), Mul(out, out) - a - Mul(a, Gap(b));
    if Same(a, 0) {
      ZeroTimes(a, gap);
      ZeroSum(d, Mul(a, gap));
    }
    if Same(Mul(b, b), 1) {
      GapOfRoot(b);
      ZeroTimes(gap, a);
      ZeroSum(d, Mul(a, gap));
    }
    forall i | Same(Mul(b, b), -1) && Inverse(a, i)
      ensures !Same(Mul(out, out), a)
    {
      if Same(Mul(out, out), a) {
        ZeroSum(Mul(out, out) - a, d);
        Cancel(a, i, gap);
        ThreeIsZero(b);
        ThreeIsNotZero();
      }
    }
  }

  lemma GapOfRoot(b: int)
    requires Same(Mul(b, b), 1)
    ensures Zero(Gap(b))
  {
    hide Zero, U, Mul;
    ZeroTimes(Mul(b, b) - 1, Mul(Mul(U, U), b) + 1);
  }

  lemma GapOfSquare(a: int, b: int, z: int, out: int)
    requires Same(Mul(z, z), Mul(b, a)) && Same(out, Mul(Factor(b), z))
    ensures Zero(Mul(out, out) - a - Mul(a, Gap(b)))
  {
    hide Zero, U, Mul, Gap, Factor, Root;
    var f, rest := Factor(b), Mul(Root(), b - Mul(b, b));
    SameSquares(out, Mul(f, z));
    SquareOfProduct(z, f);
    Commute(z, f);
    SameSelf(Mul(f, f));
    SameTimes(Mul(f, f), Mul(f, f), Mul(z, z), Mul(b, a));
    SameTrans(Mul(out, out), Mul(Mul(f, f), Mul(z, z)), Mul(Mul(f, f), Mul(b, a)));
    SelectionGap(b);
    RootOfMinusOne();
    ZeroTimes(Root(), b - Mul(b, b));
    ZeroTimes(rest, a);
    ZeroSum(Mul(out, out) - Mul(Mul(f, f), Mul(b, a)), Mul(rest, a));
    Associate(Mul(f, f), b, a);
    Distribute(1 + Gap(b), rest, a);
    Distribute(1, Gap(b), a);
    Units(a, a);
    Commute(Gap(b), a);
  }

  /** With b^2 = -1 a vanishing gap would make s b = 2 for s = 2 u + 1, and its square 1 = 4. */
  lemma ThreeIsZero(b: int)
    requires Same(Mul(b, b), -1) && Zero(Gap(b))
    ensures Zero(3)
  {
    hide Zero, U, Mul;
    var s, g := 2 * U + 1, Mul(Mul(U, U), b) + 1;
    RootOfMinusOne();
    ZeroTimes(Mul(b, b) + 1, g);
    Distribute(Mul(b, b), 1, g);
    ZeroSum(Mul(Mul(b, b) + 1, g), Gap(b));
    Units(g, g);
    ZeroTimes(Root(), b);
    TwiceGap(b);
    ZeroSum(2 * g, Mul(Root(), b));
    ZeroTimes(2 - Mul(s, b), 2 + Mul(s, b));
    ZeroTimes(Mul(b, b) + 1, Mul(s, s));
    SquareOfTwo(b);
    ZeroSum(Root(), Root());
    ZeroSum(Mul(2 - Mul(s, b), 2 + Mul(s, b)), Mul(Mul(b, b) + 1, Mul(s, s)));
    ZeroSum(Mul(2 - Mul(s, b), 2 + Mul(s, b)) + Mul(Mul(b, b) + 1, Mul(s, s)), Root() + Root());
  }

  lemma TwiceGap(b: int)
    ensures 2 * (Mul(Mul(U, U), b) + 1) - Mul(Root(), b) == 2 - Mul(2 * U + 1, b)
  {
    hide Mul, U;
    Distribute(2 * Mul(U, U), 2 * U + 1, b);
    Scaled(2, Mul(U, U), b);
  }

  lemma SquareOfTwo(b: int)
    ensures var s := 2 * U + 1;
      Mul(2 - Mul(s, b), 2 + Mul(s, b)) + Mul(Mul(b, b) + 1, Mul(s, s)) - (Root() + Root()) == 3
  {
    hide Mul, U;
    var s, sb := 2 * U + 1, Mul(2 * U + 1, b);
    Distribute(2, sb, 2 + sb);
    Distribute(2, sb, sb);
    Distribute(2, sb, 2);
    Scaled(2, 1, sb);
    Scaled(2, 1, 2);
    Units(sb, sb);
    Units(2, 2);
    Commute(2, sb);
    SquareOfProduct(s, b);
    Distribute(Mul(b, b), 1, Mul(s, s));
    Units(Mul(s, s), s);
    Distribute(2 * U, 1, s);
    Distribute(2 * U, 1, U);
    Scaled(2, U, s);
    Scaled(2, U, U);
    Units(s, s);
    Units(U, U);
    Commute(U, s);
  }

  lemma ThreeIsNotZero()
    ensures !Zero(3)
  {
  }
}
