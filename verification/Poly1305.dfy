/** poly1305_53: Poly1305 in double-precision arithmetic.  Every floating-point operation
    of the code is FAdd, FSub or FMul on the registers' values; the ghost integers beside
    them say why no operation but the alpha additions rounds. */
module Poly1305 {
  import opened Doubles
  import opened Poly1305Limbs
  import opened Arith
  import Spec = Poly1305Spec
  import opened Poly1305Words

  type Byte = Spec.Byte

  // The constant table.
  const ALPHAM80: real := 0.00000000558793544769287109375
  const ALPHAM48: real := 24.0
  const ALPHAM16: real := 103079215104.0
  const ALPHA0: real := 6755399441055744.0
  const ALPHA18: real := 1770887431076116955136.0
  const ALPHA32: real := 29014219670751100192948224.0
  const ALPHA50: real := 7605903601369376408980219232256.0
  const ALPHA64: real := 124615124604835863084731911901282304.0
  const ALPHA82: real := 32667107224410092492483962313449748299776.0
  const ALPHA96: real := 535217884764734955396857238543560676143529984.0
  const ALPHA112: real := 35076039295941670036888435985190792471742381031424.0
  const ALPHA130: real := 9194973245195333150150082162901855101712434733101613056.0
  const SCALE: real :=
    0.0000000000000000000000000000000000000036734198463196484624023016788195177431833298649127735047148490821200539357960224151611328125
  const OFFSET0: real := 6755408030990331.0
  const OFFSET1: real := 29014256564239239022116864.0
  const OFFSET2: real := 124615283061160854719918951570079744.0
  const OFFSET3: real := 535219245894202480694386063513315216128475136.0

  /** 2^a from smaller powers, for the constant table. */
  lemma PowerOf(a: int, b: int, x: real, y: real)
    requires Pow2(a) == x && Pow2(b) == y
    ensures Pow2(a + b) == x * y
  {
    Pow2Add(a, b);
  }

  lemma PowerBelow(a: int, x: real)
    requires Pow2(a) == x
    ensures Pow2(-a) * x == 1.0
  {
    Pow2Add(-a, a);
    assert Pow2(0) == 1.0;
  }

  lemma SmallPowers()
    ensures Pow2(16) == 65536.0 && Pow2(18) == 262144.0
  {
    assert Pow2(4) == 16.0 && Pow2(2) == 4.0;
    PowerOf(4, 4, 16.0, 16.0);
    PowerOf(8, 8, 256.0, 256.0);
    PowerOf(16, 2, 65536.0, 4.0);
  }

  lemma MiddlePowers()
    ensures Pow2(32) == 4294967296.0 && Pow2(50) == 1125899906842624.0
    ensures Pow2(48) == 4294967296.0 * 65536.0 && Pow2(64) == 18446744073709551616.0
  {
    SmallPowers();
    PowerOf(16, 16, 65536.0, 65536.0);
    PowerOf(32, 18, 4294967296.0, 262144.0);
    PowerOf(32, 16, 4294967296.0, 65536.0);
    PowerOf(32, 32, 4294967296.0, 4294967296.0);
  }

  lemma LargePowers()
    ensures Pow2(80) == 18446744073709551616.0 * 65536.0
    ensures Pow2(82) == 18446744073709551616.0 * 262144.0
    ensures Pow2(96) == 18446744073709551616.0 * 4294967296.0
    ensures Pow2(112) == 18446744073709551616.0 * 4294967296.0 * 65536.0
    ensures Pow2(130) == 18446744073709551616.0 * 4294967296.0 * 65536.0 * 262144.0
  {
    SmallPowers();
    MiddlePowers();
    PowerOf(64, 18, 18446744073709551616.0, 262144.0);
    PowerOf(64, 16, 18446744073709551616.0, 65536.0);
    PowerOf(64, 32, 18446744073709551616.0, 4294967296.0);
    PowerOf(96, 16, 18446744073709551616.0 * 4294967296.0, 65536.0);
    PowerOf(112, 18, 18446744073709551616.0 * 4294967296.0 * 65536.0, 262144.0);
  }

  /** The decimal constants are exactly the powers of two their comments name. */
  lemma Constants()
    ensures ALPHAM80 == Scale(ALPHA, -80) && ALPHAM48 == Scale(ALPHA, -48) && ALPHAM16 == Scale(ALPHA, -16)
    ensures ALPHA0 == Scale(ALPHA, 0) && ALPHA18 == Scale(ALPHA, 18) && ALPHA32 == Scale(ALPHA, 32)
    ensures ALPHA50 == Scale(ALPHA, 50) && ALPHA64 == Scale(ALPHA, 64) && ALPHA82 == Scale(ALPHA, 82)
    ensures ALPHA96 == Scale(ALPHA, 96) && ALPHA112 == Scale(ALPHA, 112) && ALPHA130 == Scale(ALPHA, 130)
    ensures SCALE == Scale(5, -130)
    ensures OFFSET0 == Scale(ALPHA + 0x2_0000_0000 - 5, 0)
    ensures OFFSET1 == Scale(ALPHA + 0x2_0000_0000 - 2, 32)
    ensures OFFSET2 == Scale(ALPHA + 0x2_0000_0000 - 2, 64)
    ensures OFFSET3 == Scale(ALPHA + 0x4_0000_0000 - 2, 96)
  {
    SmallPowers();
    MiddlePowers();
    LargePowers();
    PowerBelow(16, 65536.0);
    PowerBelow(48, 4294967296.0 * 65536.0);
    PowerBelow(80, 18446744073709551616.0 * 65536.0);
    PowerBelow(130, 18446744073709551616.0 * 4294967296.0 * 65536.0 * 262144.0);
    assert Pow2(0) == 1.0;
  }

  // ------ single operations and why they are exact

  lemma AddExact(a: int, b: int, e: int)
    requires -TWO53 < a + b < TWO53 && MIN_EXPONENT <= e
    ensures FAdd(Scale(a, e), Scale(b, e)) == Scale(a + b, e)
  {
    ScaleAdd(a, b, e);
    Exact(a + b, e);
  }

  lemma SubExact(a: int, b: int, e: int)
    requires -TWO53 < a - b < TWO53 && MIN_EXPONENT <= e
    ensures FSub(Scale(a, e), Scale(b, e)) == Scale(a - b, e)
  {
    ScaleAdd(a, b, e);
    Exact(a - b, e);
  }

  lemma MulExact(a: int, ea: int, b: int, eb: int)
    requires -TWO53 < a * b < TWO53 && MIN_EXPONENT <= ea + eb
    ensures FMul(Scale(a, ea), Scale(b, eb)) == Scale(a * b, ea + eb)
  {
    ScaleMul(a, ea, b, eb);
    Exact(a * b, ea + eb);
  }

  /** y = (h + alpha) - alpha and x = h - y: y is h rounded to a multiple of 2^(f+d), and
      x is what was rounded off, both exact. */
  method RoundOff(h: real, alpha: real, ghost k: int, ghost f: int, ghost d: nat, ghost m: int)
    returns (y: real, x: real, ghost c: int)
    requires h == Scale(k, f) && alpha == Scale(ALPHA, f + d) && m == IntPow2(d)
    requires MIN_EXPONENT <= f && m < TWO53 && -TWO51 * m < k < TWO51 * m
    ensures y == FSub(FAdd(h, alpha), alpha) && x == FSub(h, y)
    ensures y == Scale(c, f + d) && x == Scale(k - c * m, f)
    ensures -m <= 2 * (k - c * m) <= m
  {
    y := FAdd(h, alpha);
    y := FSub(y, alpha);
    x := FSub(h, y);
    c := CarryTrick(k, f, d, m);
    Rebase(c, d, f);
    SubExact(k, c * m, f);
  }

  lemma IntPowers()
    ensures IntPow2(2) == 4 && IntPow2(16) == 65536 && IntPow2(18) == 262144
    ensures IntPow2(32) == 0x1_0000_0000 && IntPow2(34) == 0x4_0000_0000
  {
    SmallPowers();
    MiddlePowers();
    assert IntPow2(2) == 4;
    PowerOf(32, 2, 4294967296.0, 4.0);
  }

  // ------ the key

  /** The double whose bit pattern is d, for a positive normal number. */
  function FromBits(d: int): real {
    Scale(TWO52 + d % TWO52, d / TWO52 - 1075)
  }

  /** 2151, 2215, 2279 and 2343 put n into the mantissa of alpha_0, alpha_32, alpha_64 and
      alpha_96, so that subtracting that constant leaves n * 2^e. */
  lemma LoadExact(n: int, e: nat)
    requires 0 <= n < TWO51
    ensures FSub(FromBits((2151 + 2 * e) * TWO51 + n), Scale(ALPHA, e)) == Scale(n, e)
  {
    var d := (2151 + 2 * e) * TWO51 + n;
    assert d / TWO52 == 1075 + e;
    assert TWO52 + d % TWO52 == ALPHA + n;
    SubExact(ALPHA + n, ALPHA, e);
  }

  /** The key registers kept on the stack. */
  datatype KeyRegisters = KeyRegisters(
    r0low: real, r0high: real, r1low: real, r1high: real, r2low: real, r2high: real, r3low: real, r3high: real,
    sr1low: real, sr1high: real, sr2low: real, sr2high: real, sr3low: real, sr3high: real)

  ghost predicate KeyHolds(r: KeyRegisters, k: Key) {
    && r.r0low == Scale(k.l0, 0) && r.r0high == Scale(k.u0, 16)
    && r.r1low == Scale(k.l1, 32) && r.r1high == Scale(k.u1, 48)
    && r.r2low == Scale(k.l2, 64) && r.r2high == Scale(k.u2, 80)
    && r.r3low == Scale(k.l3, 96) && r.r3high == Scale(k.u3, 112)
    && r.sr1low == Scale(k.s1, -96) && r.sr1high == Scale(k.t1, -80)
    && r.sr2low == Scale(k.s2, -64) && r.sr2high == Scale(k.t2, -48)
    && r.sr3low == Scale(k.s3, -32) && r.sr3high == Scale(k.t3, -16)
  }

  /** The low and high part of one word w of r, at 2^e, as multiples of 2^e and 2^(e+16);
      alpha is alpha_(e+18), or alpha_(e+16) for the last word. */
  method SplitWord(bits: int, alphaWord: real, alpha: real, ghost w: int, ghost e: nat, ghost d: nat)
    returns (whole: real, low: real, high: real, ghost l: int, ghost u: int)
    requires bits == (2151 + 2 * e) * TWO51 + w && alphaWord == Scale(ALPHA, e)
    requires (d == 16 || d == 18) && alpha == Scale(ALPHA, e + d) && 0 <= w < 0x1000_0000
    ensures whole == Scale(w, e) && low == Scale(l, e) && high == Scale(u, e + 16)
    ensures w == l + B16 * u && 0 <= u <= 4096
    ensures if d == 16 then -0x8000 <= l <= 0x8000 else -0x2_0000 <= l <= 0x2_0000
  {
    hide Pow2, Scale, IntPow2, FAdd, FSub, FMul;
    IntPowers();
    LoadExact(w, e);
    whole := FSub(FromBits(bits), alphaWord);
    ghost var c;
    high, low, c := RoundOff(whole, alpha, w, e, d, IntPow2(d));
    if d == 18 {
      Rebase(c, 2, e + 16);
      l, u := w - c * 0x4_0000, 4 * c;
    } else {
      l, u := w - c * 0x1_0000, c;
    }
  }

  /** The low and high part of 5 * 2^-130 times a word 4 a at 2^e. */
  method SplitScaled(whole: real, alpha: real, ghost a: int, ghost e: nat)
    returns (low: real, high: real, ghost s: int, ghost t: int)
    requires whole == Scale(4 * a, e) && alpha == Scale(ALPHA, e - 112) && 0 <= a < 0x400_0000
    ensures low == Scale(s, e - 128) && high == Scale(t, e - 112)
    ensures 5 * a == s + B16 * t && 0 <= t <= 5120 && -0x8000 <= s <= 0x8000
  {
    hide Pow2, Scale, IntPow2, FAdd, FSub, FMul;
    IntPowers();
    Constants();
    MulExact(5, -130, 4 * a, e);
    Rebase(5 * a, 2, e - 130);
    low := FMul(SCALE, whole);
    ghost var c;
    high, low, c := RoundOff(low, alpha, 5 * a, e - 128, 16, IntPow2(16));
    s, t := 5 * a - c * 0x1_0000, c;
  }

  lemma QuarterWord(b0: Byte, b1: Byte, b2: Byte, b3: Byte) returns (a: int)
    requires b0 % 4 == 0 && b3 < 16
    ensures 4 * a == Word(b0, b1, b2, b3) && 0 <= a < 0x400_0000
  {
    a := b0 / 4 + 0x40 * b1 + 0x4000 * b2 + 0x40_0000 * b3;
  }

  lemma ClampedWords(r: seq<Byte>) returns (a0: int, a1: int, a2: int, a3: int)
    requires Spec.Clamped(r)
    ensures 0 <= a0 < 0x1000_0000 && 0 <= a1 < 0x400_0000 && 0 <= a2 < 0x400_0000 && 0 <= a3 < 0x400_0000
    ensures a0 == Word(r[0], r[1], r[2], r[3]) && 4 * a1 == Word(r[4], r[5], r[6], r[7])
    ensures 4 * a2 == Word(r[8], r[9], r[10], r[11]) && 4 * a3 == Word(r[12], r[13], r[14], r[15])
    ensures Spec.LittleEndian(r) == a0 + B32 * (4 * a1) + B64 * (4 * a2) + B96 * (4 * a3)
  {
    LittleEndian16(r);
    a0 := Word(r[0], r[1], r[2], r[3]);
    a1 := QuarterWord(r[4], r[5], r[6], r[7]);
    a2 := QuarterWord(r[8], r[9], r[10], r[11]);
    a3 := QuarterWord(r[12], r[13], r[14], r[15]);
  }

  method SplitKey(r: array<Byte>) returns (kr: KeyRegisters, ghost k: Key)
    requires Spec.Clamped(r[..])
    ensures k.Valid() && KeyHolds(kr, k)
    ensures k.Value() == Spec.LittleEndian(r[..])
  {
    ghost var a0, a1, a2, a3 := ClampedWords(r[..]);
    var d0 := 2151 * TWO51 + Word(r[0], r[1], r[2], r[3]);
    var d1 := 2215 * TWO51 + Word(r[4], r[5], r[6], r[7]);
    var d2 := 2279 * TWO51 + Word(r[8], r[9], r[10], r[11]);
    var d3 := 2343 * TWO51 + Word(r[12], r[13], r[14], r[15]);
    kr, k := SplitWords(d0, d1, d2, d3, a0, a1, a2, a3);
  }

  method SplitWords(d0: int, d1: int, d2: int, d3: int, ghost a0: int, ghost a1: int, ghost a2: int, ghost a3: int)
    returns (kr: KeyRegisters, ghost k: Key)
    requires 0 <= a0 < 0x1000_0000 && 0 <= a1 < 0x400_0000 && 0 <= a2 < 0x400_0000 && 0 <= a3 < 0x400_0000
    requires d0 == 2151 * TWO51 + a0 && d1 == 2215 * TWO51 + 4 * a1
    requires d2 == 2279 * TWO51 + 4 * a2 && d3 == 2343 * TWO51 + 4 * a3
    ensures k.Valid() && KeyHolds(kr, k)
    ensures k.Value() == a0 + B32 * (4 * a1) + B64 * (4 * a2) + B96 * (4 * a3)
  {
    hide Pow2, Scale, IntPow2, FAdd, FSub, FMul;
    Constants();
    var r0, r0low, r0high, l0, u0 := SplitWord(d0, ALPHA0, ALPHA18, a0, 0, 18);
    var r1, r1low, r1high, l1, u1 := SplitWord(d1, ALPHA32, ALPHA50, 4 * a1, 32, 18);
    var r2, r2low, r2high, l2, u2 := SplitWord(d2, ALPHA64, ALPHA82, 4 * a2, 64, 18);
    var r3, r3low, r3high, l3, u3 := SplitWord(d3, ALPHA96, ALPHA112, 4 * a3, 96, 16);
    var sr1low, sr1high, s1, t1 := SplitScaled(r1, ALPHAM80, a1, 32);
    var sr2low, sr2high, s2, t2 := SplitScaled(r2, ALPHAM48, a2, 64);
    var sr3low, sr3high, s3, t3 := SplitScaled(r3, ALPHAM16, a3, 96);
    kr := KeyRegisters(r0low, r0high, r1low, r1high, r2low, r2high, r3low, r3high,
                       sr1low, sr1high, sr2low, sr2high, sr3low, sr3high);
    k := Key(l0, u0, l1, u1, l2, u2, l3, u3, s1, t1, s2, t2, s3, t3);
  }

  // ------ one block: carry, multiply, add

  datatype Registers = Registers(h0: real, h1: real, h2: real, h3: real, h4: real, h5: real, h6: real, h7: real)

  ghost predicate Holds(h: Registers, k: Limbs) {
    && h.h0 == Scale(k.k0, 0) && h.h1 == Scale(k.k1, 16) && h.h2 == Scale(k.k2, 32) && h.h3 == Scale(k.k3, 48)
    && h.h4 == Scale(k.k4, 64) && h.h5 == Scale(k.k5, 80) && h.h6 == Scale(k.k6, 96) && h.h7 == Scale(k.k7, 112)
  }

  ghost predicate CarriedHolds(x0: real, x2: real, x4: real, x6: real, x: Carried) {
    x0 == Scale(x.n0, 0) && x2 == Scale(x.n2, 32) && x4 == Scale(x.n4, 64) && x6 == Scale(x.n6, 96)
  }

  /** Adding a multiple of 2^(e+16) and one of 2^e. */
  lemma JoinExact(a: int, b: int, e: int)
    requires -TWO53 < 0x1_0000 * a + b < TWO53 && MIN_EXPONENT <= e
    ensures FAdd(Scale(a, e + 16), Scale(b, e)) == Scale(0x1_0000 * a + b, e)
  {
    hide Pow2, Scale, IntPow2, FAdd, FSub, FMul;
    IntPowers();
    Rebase(a, 16, e);
    AddExact(0x1_0000 * a, b, e);
  }

  lemma WrapExact(c: int)
    requires -0x20_0000_0000 < c < 0x20_0000_0000
    ensures FMul(Scale(c, 130), SCALE) == Scale(5 * c, 0)
  {
    hide Pow2, Scale, IntPow2, FAdd, FSub, FMul;
    Constants();
    MulExact(c, 130, 5, -130);
  }

  method CarryRegisters(h: Registers, ghost k: Limbs)
    returns (x0: real, x2: real, x4: real, x6: real, ghost x: Carried, ghost q: int)
    requires Holds(h, k) && k.Bounded()
    ensures CarriedHolds(x0, x2, x4, x6, x) && x.Bounded()
    ensures k.Value() == x.Value() + P * q
  {
    hide Pow2, Scale, IntPow2, FAdd, FSub, FMul;
    IntPowers();
    Constants();
    var x1, x3, x5, x7;
    var y7, y6, y5, y4, y3, y2, y1, y0;
    ghost var c7, c6, c5, c4, c3, c2, c1, c0;
    y7, x7, c7 := RoundOff(h.h7, ALPHA130, k.k7, 112, 18, 0x4_0000);
    y6, x6, c6 := RoundOff(h.h6, ALPHA130, k.k6, 96, 34, 0x4_0000_0000);
    y1, x1, c1 := RoundOff(h.h1, ALPHA32, k.k1, 16, 16, 0x1_0000);
    y0, x0, c0 := RoundOff(h.h0, ALPHA32, k.k0, 0, 32, 0x1_0000_0000);
    y5, x5, c5 := RoundOff(h.h5, ALPHA96, k.k5, 80, 16, 0x1_0000);
    y4, x4, c4 := RoundOff(h.h4, ALPHA96, k.k4, 64, 32, 0x1_0000_0000);
    y3, x3, c3 := RoundOff(h.h3, ALPHA64, k.k3, 48, 16, 0x1_0000);
    y2, x2, c2 := RoundOff(h.h2, ALPHA64, k.k2, 32, 32, 0x1_0000_0000);
    ghost var d0, d1 := k.k0 - c0 * 0x1_0000_0000, k.k1 - c1 * 0x1_0000;
    ghost var d2, d3 := k.k2 - c2 * 0x1_0000_0000, k.k3 - c3 * 0x1_0000;
    ghost var d4, d5 := k.k4 - c4 * 0x1_0000_0000, k.k5 - c5 * 0x1_0000;
    ghost var d6, d7 := k.k6 - c6 * 0x4_0000_0000, k.k7 - c7 * 0x4_0000;
    y7 := FMul(y7, SCALE);
    y6 := FMul(y6, SCALE);
    x0, x2, x4, x6 := Gather(y7, y6, y5, y4, y3, y2, y1, y0, x7, x6, x5, x4, x3, x2, x1, x0,
                             c7, c6, c5, c4, c3, c2, c1, c0, d7, d6, d5, d4, d3, d2, d1, d0);
    x := Carried(0x1_0000 * d1 + 5 * c7 + d0 + 5 * c6, 0x1_0000 * d3 + c1 + d2 + c0,
                 0x1_0000 * d5 + c3 + d4 + c2, 0x1_0000 * d7 + c5 + d6 + c4);
    q := c7 + c6;
  }

  /** The sums x_2i + x_2i+1 of what stays in a limb and what is carried into it. */
  method Gather(y7: real, y6: real, y5: real, y4: real, y3: real, y2: real, y1: real, y0: real, x7: real, x6: real,
                x5: real, x4: real, x3: real, x2: real, x1: real, x0: real, ghost c7: int, ghost c6: int, ghost c5: int,
                ghost c4: int, ghost c3: int, ghost c2: int, ghost c1: int, ghost c0: int, ghost d7: int, ghost d6: int,
                ghost d5: int, ghost d4: int, ghost d3: int, ghost d2: int, ghost d1: int, ghost d0: int)
    returns (z0: real, z2: real, z4: real, z6: real)
    requires y7 == FMul(Scale(c7, 130), SCALE) && y6 == FMul(Scale(c6, 130), SCALE)
    requires y5 == Scale(c5, 96) && y4 == Scale(c4, 96) && y3 == Scale(c3, 64) && y2 == Scale(c2, 64)
    requires y1 == Scale(c1, 32) && y0 == Scale(c0, 32)
    requires x7 == Scale(d7, 112) && x6 == Scale(d6, 96) && x5 == Scale(d5, 80) && x4 == Scale(d4, 64)
    requires x3 == Scale(d3, 48) && x2 == Scale(d2, 32) && x1 == Scale(d1, 16) && x0 == Scale(d0, 0)
    requires -0x20_0000_0000 < c7 < 0x20_0000_0000 && -0x20_0000_0000 < c6 < 0x20_0000_0000
    requires -0x20_0000_0000 < c5 < 0x20_0000_0000 && -0x20_0000_0000 < c4 < 0x20_0000_0000
    requires -0x20_0000_0000 < c3 < 0x20_0000_0000 && -0x20_0000_0000 < c2 < 0x20_0000_0000
    requires -0x20_0000_0000 < c1 < 0x20_0000_0000 && -0x20_0000_0000 < c0 < 0x20_0000_0000
    requires -0x8000_0000 <= d0 <= 0x8000_0000 && -0x8000 <= d1 <= 0x8000
    requires -0x8000_0000 <= d2 <= 0x8000_0000 && -0x8000 <= d3 <= 0x8000
    requires -0x8000_0000 <= d4 <= 0x8000_0000 && -0x8000 <= d5 <= 0x8000
    requires -0x2_0000_0000 <= d6 <= 0x2_0000_0000 && -0x2_0000 <= d7 <= 0x2_0000
    ensures z0 == Scale(0x1_0000 * d1 + 5 * c7 + d0 + 5 * c6, 0)
    ensures z2 == Scale(0x1_0000 * d3 + c1 + d2 + c0, 32)
    ensures z4 == Scale(0x1_0000 * d5 + c3 + d4 + c2, 64)
    ensures z6 == Scale(0x1_0000 * d7 + c5 + d6 + c4, 96)
  {
    hide Pow2, Scale, IntPow2, FAdd, FSub, FMul;
    WrapExact(c7);
    WrapExact(c6);
    JoinExact(d1, 5 * c7, 0);
    AddExact(d0, 5 * c6, 0);
    AddExact(d0 + 5 * c6, 0x1_0000 * d1 + 5 * c7, 0);
    z0 := FAdd(FAdd(x0, y6), FAdd(x1, y7));
    JoinExact(d7, c5, 96);
    AddExact(d6, c4, 96);
    AddExact(d6 + c4, 0x1_0000 * d7 + c5, 96);
    z6 := FAdd(FAdd(x6, y4), FAdd(x7, y5));
    JoinExact(d5, c3, 64);
    AddExact(d4, c2, 64);
    AddExact(d4 + c2, 0x1_0000 * d5 + c3, 64);
    z4 := FAdd(FAdd(x4, y2), FAdd(x5, y3));
    JoinExact(d3, c1, 32);
    AddExact(d2, c0, 32);
    AddExact(d2 + c0, 0x1_0000 * d3 + c1, 32);
    z2 := FAdd(FAdd(x2, y0), FAdd(x3, y1));
  }

  /** One factor pair of a dot product: p * 2^f times q * 2^g, with |p| <= m and |q| <= b. */
  datatype Factors = Factors(p: int, f: int, q: int, g: int, m: nat, b: nat) {
    ghost predicate Within() { 0 - m <= p <= m && 0 - b <= q <= b }
    ghost function Left(): real { Scale(p, f) }
    ghost function Right(): real { Scale(q, g) }
  }

  function Dot(a0: real, b0: real, a1: real, b1: real, a2: real, b2: real, a3: real, b3: real): real {
    FAdd(FAdd(FAdd(FMul(a0, b0), FMul(a1, b1)), FMul(a2, b2)), FMul(a3, b3))
  }

  lemma FactorExact(t: Factors)
    requires t.Within() && t.m * t.b < TWO53 && MIN_EXPONENT <= t.f + t.g
    ensures FMul(t.Left(), t.Right()) == Scale(t.p * t.q, t.f + t.g)
    ensures -(t.m * t.b) <= t.p * t.q <= t.m * t.b
  {
    Symmetric(t.p, t.m, t.q, t.b);
    MulExact(t.p, t.f, t.q, t.g);
  }

  lemma DotExact(t0: Factors, t1: Factors, t2: Factors, t3: Factors, e: int)
    requires t0.Within() && t1.Within() && t2.Within() && t3.Within()
    requires t0.f + t0.g == t1.f + t1.g == t2.f + t2.g == t3.f + t3.g == e && MIN_EXPONENT <= e
    requires t0.m * t0.b + t1.m * t1.b + t2.m * t2.b + t3.m * t3.b < TWO53
    ensures Dot(t0.Left(), t0.Right(), t1.Left(), t1.Right(), t2.Left(), t2.Right(), t3.Left(), t3.Right())
         == Scale(t0.p * t0.q + t1.p * t1.q + t2.p * t2.q + t3.p * t3.q, e)
  {
    hide Pow2, Scale, FAdd, FSub, FMul;
    Products(t0, t1, t2, t3);
    FactorExact(t0);
    FactorExact(t1);
    FactorExact(t2);
    FactorExact(t3);
    var n0, n1, n2, n3 := t0.p * t0.q, t1.p * t1.q, t2.p * t2.q, t3.p * t3.q;
    AddExact(n0, n1, e);
    AddExact(n0 + n1, n2, e);
    AddExact(n0 + n1 + n2, n3, e);
  }

  lemma Products(t0: Factors, t1: Factors, t2: Factors, t3: Factors)
    ensures t0.m * t0.b >= 0 && t1.m * t1.b >= 0 && t2.m * t2.b >= 0 && t3.m * t3.b >= 0
  {
  }

  method MultiplyRegisters(kr: KeyRegisters, x0: real, x2: real, x4: real, x6: real, ghost k: Key, ghost x: Carried)
    returns (h: Registers)
    requires KeyHolds(kr, k) && k.Valid() && CarriedHolds(x0, x2, x4, x6, x) && x.Bounded()
    ensures Holds(h, k.Times(x)) && k.Times(x).Product()
  {
    hide Pow2, Scale, FAdd, FSub, FMul, Dot;
    TimesIsBounded(k, x);
    LowDots(k, x);
    HighDots(k, x);
    var h6 := Dot(kr.r3low, x0, kr.r0low, x6, kr.r1low, x4, kr.r2low, x2);
    var h7 := Dot(kr.r3high, x0, kr.r0high, x6, kr.r1high, x4, kr.r2high, x2);
    var h0 := Dot(kr.r0low, x0, kr.sr1low, x6, kr.sr2low, x4, kr.sr3low, x2);
    var h1 := Dot(kr.r0high, x0, kr.sr1high, x6, kr.sr2high, x4, kr.sr3high, x2);
    var h2 := Dot(kr.r1low, x0, kr.sr2low, x6, kr.sr3low, x4, kr.r0low, x2);
    var h3 := Dot(kr.r1high, x0, kr.sr2high, x6, kr.sr3high, x4, kr.r0high, x2);
    var h4 := Dot(kr.r2low, x0, kr.sr3low, x6, kr.r0low, x4, kr.r1low, x2);
    var h5 := Dot(kr.r2high, x0, kr.sr3high, x6, kr.r0high, x4, kr.r1high, x2);
    h := Registers(h0, h1, h2, h3, h4, h5, h6, h7);
  }

  const X0 := 9_600_000_000
  const X2 := 13_700_000_000
  const X4 := 13_500_000_000
  const X6 := 30_500_000_000

  lemma LowDots(k: Key, x: Carried)
    requires k.Valid() && x.Bounded()
    ensures var h := k.Times(x); var x0, x2, x4, x6 :=
      Scale(x.n0, 0), Scale(x.n2, 32), Scale(x.n4, 64), Scale(x.n6, 96);
            && Dot(Scale(k.l0, 0), x0, Scale(k.s1, -96), x6, Scale(k.s2, -64), x4, Scale(k.s3, -32), x2)
                 == Scale(h.k0, 0)
            && Dot(Scale(k.l1, 32), x0, Scale(k.s2, -64), x6, Scale(k.s3, -32), x4, Scale(k.l0, 0), x2)
                 == Scale(h.k2, 32)
            && Dot(Scale(k.l2, 64), x0, Scale(k.s3, -32), x6, Scale(k.l0, 0), x4, Scale(k.l1, 32), x2)
                 == Scale(h.k4, 64)
            && Dot(Scale(k.l3, 96), x0, Scale(k.l0, 0), x6, Scale(k.l1, 32), x4, Scale(k.l2, 64), x2) == Scale(h.k6, 96)
  {
    hide Pow2, Scale, FAdd, FSub, FMul, Dot;
    DotExact(Factors(k.l0, 0, x.n0, 0, 131072, X0), Factors(k.s1, -96, x.n6, 96, 32768, X6),
             Factors(k.s2, -64, x.n4, 64, 32768, X4), Factors(k.s3, -32, x.n2, 32, 32768, X2), 0);
    DotExact(Factors(k.l1, 32, x.n0, 0, 131072, X0), Factors(k.s2, -64, x.n6, 96, 32768, X6),
             Factors(k.s3, -32, x.n4, 64, 32768, X4), Factors(k.l0, 0, x.n2, 32, 131072, X2), 32);
    DotExact(Factors(k.l2, 64, x.n0, 0, 131072, X0), Factors(k.s3, -32, x.n6, 96, 32768, X6),
             Factors(k.l0, 0, x.n4, 64, 131072, X4), Factors(k.l1, 32, x.n2, 32, 131072, X2), 64);
    DotExact(Factors(k.l3, 96, x.n0, 0, 32768, X0), Factors(k.l0, 0, x.n6, 96, 131072, X6),
             Factors(k.l1, 32, x.n4, 64, 131072, X4), Factors(k.l2, 64, x.n2, 32, 131072, X2), 96);
  }

  lemma HighDots(k: Key, x: Carried)
    requires k.Valid() && x.Bounded()
    ensures var h := k.Times(x); var x0, x2, x4, x6 :=
      Scale(x.n0, 0), Scale(x.n2, 32), Scale(x.n4, 64), Scale(x.n6, 96);
            && Dot(Scale(k.u0, 16), x0, Scale(k.t1, -80), x6, Scale(k.t2, -48), x4, Scale(k.t3, -16), x2)
                 == Scale(h.k1, 16)
            && Dot(Scale(k.u1, 48), x0, Scale(k.t2, -48), x6, Scale(k.t3, -16), x4, Scale(k.u0, 16), x2)
                 == Scale(h.k3, 48)
            && Dot(Scale(k.u2, 80), x0, Scale(k.t3, -16), x6, Scale(k.u0, 16), x4, Scale(k.u1, 48), x2)
                 == Scale(h.k5, 80)
            && Dot(Scale(k.u3, 112), x0, Scale(k.u0, 16), x6, Scale(k.u1, 48), x4, Scale(k.u2, 80), x2)
                 == Scale(h.k7, 112)
  {
    hide Pow2, Scale, FAdd, FSub, FMul, Dot;
    DotExact(Factors(k.u0, 16, x.n0, 0, 4096, X0), Factors(k.t1, -80, x.n6, 96, 5120, X6),
             Factors(k.t2, -48, x.n4, 64, 5120, X4), Factors(k.t3, -16, x.n2, 32, 5120, X2), 16);
    DotExact(Factors(k.u1, 48, x.n0, 0, 4096, X0), Factors(k.t2, -48, x.n6, 96, 5120, X6),
             Factors(k.t3, -16, x.n4, 64, 5120, X4), Factors(k.u0, 16, x.n2, 32, 4096, X2), 48);
    DotExact(Factors(k.u2, 80, x.n0, 0, 4096, X0), Factors(k.t3, -16, x.n6, 96, 5120, X6),
             Factors(k.u0, 16, x.n4, 64, 4096, X4), Factors(k.u1, 48, x.n2, 32, 4096, X2), 80);
    DotExact(Factors(k.u3, 112, x.n0, 0, 4096, X0), Factors(k.u0, 16, x.n6, 96, 4096, X6),
             Factors(k.u1, 48, x.n4, 64, 4096, X4), Factors(k.u2, 80, x.n2, 32, 4096, X2), 112);
  }

  /** h1, h3, h5 take the words at 2^32, 2^64, 2^96; d0..d3 are the words' bit patterns. */
  method AddWords(h: Registers, d0: int, d1: int, d2: int, d3: int, ghost k: Limbs, ghost w0: int, ghost w1: int,
                  ghost w2: int, ghost w3: int)
    returns (h': Registers)
    requires Holds(h, k) && k.Product()
    requires 0 <= w0 < B32 && 0 <= w1 < B32 && 0 <= w2 < B32 && 0 <= w3 < 2 * B32
    requires d0 == 2151 * TWO51 + w0 && d1 == 2215 * TWO51 + w1 && d2 == 2279 * TWO51 + w2 && d3 == 2343 * TWO51 + w3
    ensures Holds(h', k.AddBlock(w0, w1, w2, w3)) && k.AddBlock(w0, w1, w2, w3).Bounded()
    ensures k.AddBlock(w0, w1, w2, w3).Value() == k.Value() + w0 + B32 * w1 + B64 * w2 + B96 * w3
  {
    hide Pow2, Scale, IntPow2, FAdd, FSub, FMul, FromBits;
    Constants();
    IntPowers();
    LoadExact(w0, 0);
    LoadExact(w1, 32);
    LoadExact(w2, 64);
    LoadExact(w3, 96);
    Rebase(w1, 16, 16);
    Rebase(w2, 16, 48);
    Rebase(w3, 16, 80);
    AddExact(k.k0, w0, 0);
    AddExact(k.k1, w1 * B16, 16);
    AddExact(k.k3, w2 * B16, 48);
    AddExact(k.k5, w3 * B16, 80);
    var z0 := FSub(FromBits(d0), ALPHA0);
    var z1 := FSub(FromBits(d1), ALPHA32);
    var z2 := FSub(FromBits(d2), ALPHA64);
    var z3 := FSub(FromBits(d3), ALPHA96);
    h' := h.(h0 := FAdd(h.h0, z0), h1 := FAdd(h.h1, z1), h3 := FAdd(h.h3, z2), h5 := FAdd(h.h5, z3));
  }

  lemma Powers256()
    ensures Spec.Pow256(16) == B128
  {
    assert Spec.Pow256(8) == B64;
    assert Spec.Pow256(16) == 256 * 256 * 256 * 256 * Spec.Pow256(12);
    assert Spec.Pow256(12) == 256 * 256 * 256 * 256 * Spec.Pow256(8);
  }

  lemma BlockWords(b: seq<Byte>)
    requires |b| == 16
    ensures 0 <= Word(b[0], b[1], b[2], b[3]) < B32 && 0 <= Word(b[4], b[5], b[6], b[7]) < B32
    ensures 0 <= Word(b[8], b[9], b[10], b[11]) < B32 && 0 <= Word(b[12], b[13], b[14], b[15] as int + 256) < 2 * B32
    ensures Spec.BlockNumber(b) == Word(b[0], b[1], b[2], b[3]) + B32 * Word(b[4], b[5], b[6], b[7])
          + B64 * Word(b[8], b[9], b[10], b[11]) + B96 * Word(b[12], b[13], b[14], b[15] as int + 256)
  {
    LittleEndian16(b);
    Powers256();
  }

  /** Adds the 16 bytes at p, with the bit 2^128 that m33 += 256 sets. */
  method AddBlockAt(h: Registers, m: array<Byte>, p: nat, ghost k: Limbs) returns (h': Registers, ghost k': Limbs)
    requires p + 16 <= m.Length && Holds(h, k) && k.Product()
    ensures Holds(h', k') && k'.Bounded()
    ensures k'.Value() == k.Value() + Spec.BlockNumber(m[p..p + 16])
  {
    hide Holds, Word, Spec.BlockNumber;
    BlockWords(m[p..p + 16]);
    var w0 := Word(m[p], m[p + 1], m[p + 2], m[p + 3]);
    var w1 := Word(m[p + 4], m[p + 5], m[p + 6], m[p + 7]);
    var w2 := Word(m[p + 8], m[p + 9], m[p + 10], m[p + 11]);
    var w3 := Word(m[p + 12], m[p + 13], m[p + 14], m[p + 15] as int + 256);
    h' := AddWords(h, 2151 * TWO51 + w0, 2215 * TWO51 + w1, 2279 * TWO51 + w2, 2343 * TWO51 + w3, k, w0, w1, w2, w3);
    k' := k.AddBlock(w0, w1, w2, w3);
  }

  // ------ the last 1 to 15 bytes, without branches

  /** An int32 shifted right by 31 places. */
  function SignMask(x: int): int {
    if x < 0 then -1 else 0
  }

  /** b & ~mask, for a mask of no bits or of all bits. */
  function AndNot(b: int, mask: int): int
    requires mask == 0 || mask == -1
  {
    if mask == 0 then b else 0
  }

  /** Digit i of the padded block of t: t's byte, then a 1, then zeros. */
  function Digit(t: seq<Byte>, i: nat): Byte {
    if i < |t| then t[i] else if i == |t| then 1 else 0
  }

  /** Every read stays inside the message; the bytes beyond it are masked to zero and the
      byte right after it is set to 1. */
  method TailBytes(m: array<Byte>, p: nat, l: nat)
    returns (m00: int, m01: int, m02: int, m03: int, m10: int, m11: int, m12: int, m13: int, m20: int, m21: int,
             m22: int, m23: int, m30: int, m31: int, m32: int, m33: int)
    requires 1 <= l < 16 && p + l <= m.Length
    ensures m00 == Digit(m[p..p + l], 0)
    ensures m01 == Digit(m[p..p + l], 1)
    ensures m02 == Digit(m[p..p + l], 2)
    ensures m03 == Digit(m[p..p + l], 3)
    ensures m10 == Digit(m[p..p + l], 4)
    ensures m11 == Digit(m[p..p + l], 5)
    ensures m12 == Digit(m[p..p + l], 6)
    ensures m13 == Digit(m[p..p + l], 7)
    ensures m20 == Digit(m[p..p + l], 8)
    ensures m21 == Digit(m[p..p + l], 9)
    ensures m22 == Digit(m[p..p + l], 10)
    ensures m23 == Digit(m[p..p + l], 11)
    ensures m30 == Digit(m[p..p + l], 12)
    ensures m31 == Digit(m[p..p + l], 13)
    ensures m32 == Digit(m[p..p + l], 14)
    ensures m33 == Digit(m[p..p + l], 15)
  {
    var lbelow2 := SignMask(l - 2);
    var lbelow3 := SignMask(l - 3);
    var lbelow4 := SignMask(l - 4);
    var lbelow5 := SignMask(l - 5);
    var lbelow6 := SignMask(l - 6);
    var lbelow7 := SignMask(l - 7);
    var lbelow8 := SignMask(l - 8);
    var lbelow9 := SignMask(l - 9);
    var lbelow10 := SignMask(l - 10);
    var lbelow11 := SignMask(l - 11);
    var lbelow12 := SignMask(l - 12);
    var lbelow13 := SignMask(l - 13);
    var lbelow14 := SignMask(l - 14);
    var lbelow15 := SignMask(l - 15);
    var q: int := p;
    m00 := m[q];
    q := q + lbelow2;
    m01 := m[q + 1];
    assert q == p + if l < 2 then l - 2 else 0;
    q := q + lbelow3;
    m02 := m[q + 2];
    assert q == p + if l < 3 then l - 3 else 0;
    q := q + lbelow4;
    m03 := m[q + 3];
    assert q == p + if l < 4 then l - 4 else 0;
    q := q + lbelow5;
    m10 := m[q + 4];
    assert q == p + if l < 5 then l - 5 else 0;
    q := q + lbelow6;
    m11 := m[q + 5];
    assert q == p + if l < 6 then l - 6 else 0;
    q := q + lbelow7;
    m12 := m[q + 6];
    assert q == p + if l < 7 then l - 7 else 0;
    q := q + lbelow8;
    m13 := m[q + 7];
    assert q == p + if l < 8 then l - 8 else 0;
    q := q + lbelow9;
    m20 := m[q + 8];
    assert q == p + if l < 9 then l - 9 else 0;
    q := q + lbelow10;
    m21 := m[q + 9];
    assert q == p + if l < 10 then l - 10 else 0;
    q := q + lbelow11;
    m22 := m[q + 10];
    assert q == p + if l < 11 then l - 11 else 0;
    q := q + lbelow12;
    m23 := m[q + 11];
    assert q == p + if l < 12 then l - 12 else 0;
    q := q + lbelow13;
    m30 := m[q + 12];
    assert q == p + if l < 13 then l - 13 else 0;
    q := q + lbelow14;
    m31 := m[q + 13];
    assert q == p + if l < 14 then l - 14 else 0;
    q := q + lbelow15;
    m32 := m[q + 14];
    assert q == p + if l < 15 then l - 15 else 0;
    m01 := AndNot(m01, lbelow2) - lbelow2;
    m02 := AndNot(m02, lbelow3) + (lbelow2 - lbelow3);
    m03 := AndNot(m03, lbelow4) + (lbelow3 - lbelow4);
    m10 := AndNot(m10, lbelow5) + (lbelow4 - lbelow5);
    m11 := AndNot(m11, lbelow6) + (lbelow5 - lbelow6);
    m12 := AndNot(m12, lbelow7) + (lbelow6 - lbelow7);
    m13 := AndNot(m13, lbelow8) + (lbelow7 - lbelow8);
    m20 := AndNot(m20, lbelow9) + (lbelow8 - lbelow9);
    m21 := AndNot(m21, lbelow10) + (lbelow9 - lbelow10);
    m22 := AndNot(m22, lbelow11) + (lbelow10 - lbelow11);
    m23 := AndNot(m23, lbelow12) + (lbelow11 - lbelow12);
    m30 := AndNot(m30, lbelow13) + (lbelow12 - lbelow13);
    m31 := AndNot(m31, lbelow14) + (lbelow13 - lbelow14);
    m32 := AndNot(m32, lbelow15) + (lbelow14 - lbelow15);
    m33 := lbelow15 + 1;
    ghost var t := m[p..p + l];
    assert forall i :: 0 <= i < l ==> t[i] == m[p + i];
  }

  /** The padded last block as four words in the mantissas of the alphas. */
  method TailWords(m: array<Byte>, p: nat, l: nat)
    returns (d0: int, d1: int, d2: int, d3: int, ghost w0: int, ghost w1: int, ghost w2: int, ghost w3: int)
    requires 1 <= l < 16 && p + l <= m.Length
    ensures 0 <= w0 < B32 && 0 <= w1 < B32 && 0 <= w2 < B32 && 0 <= w3 < B32
    ensures d0 == 2151 * TWO51 + w0 && d1 == 2215 * TWO51 + w1 && d2 == 2279 * TWO51 + w2 && d3 == 2343 * TWO51 + w3
    ensures w0 + B32 * w1 + B64 * w2 + B96 * w3 == Spec.BlockNumber(m[p..p + l])
  {
    var m00, m01, m02, m03, m10, m11, m12, m13, m20, m21, m22, m23, m30, m31, m32, m33 := TailBytes(m, p, l);
    ghost var t := m[p..p + l];
    ghost var b := seq(16, i requires 0 <= i => Digit(t, i));
    PaddedBlock(t, b);
    LittleEndian16(b);
    w0, w1 := Word(m00, m01, m02, m03), Word(m10, m11, m12, m13);
    w2, w3 := Word(m20, m21, m22, m23), Word(m30, m31, m32, m33);
    d0 := 2151 * TWO51 + Word(m00, m01, m02, m03);
    d1 := 2215 * TWO51 + Word(m10, m11, m12, m13);
    d2 := 2279 * TWO51 + Word(m20, m21, m22, m23);
    d3 := 2343 * TWO51 + Word(m30, m31, m32, m33);
  }

  /** Zero bytes on top change nothing, and a byte 1 right above t adds 256^|t|. */
  lemma {:induction false} PaddedBlock(t: seq<Byte>, b: seq<Byte>)
    requires |t| < |b|
    requires forall i :: 0 <= i < |b| ==> b[i] == Digit(t, i)
    ensures Spec.LittleEndian(b) == Spec.BlockNumber(t)
  {
    assert b[0] == Digit(t, 0);
    if t == [] {
      Zeros(b[1..]);
    } else {
      PaddedBlock(t[1..], b[1..]);
    }
  }

  lemma {:induction false} Zeros(b: seq<Byte>)
    requires forall i :: 0 <= i < |b| ==> b[i] == 0
    ensures Spec.LittleEndian(b) == 0
  {
    if b != [] {
      Zeros(b[1..]);
    }
  }

  // ------ the last reduction and the tag

  /** The bit pattern of a positive normal double. */
  function ToBits(x: real): int
    requires x > 0.0
  {
    var e := Binade(x);
    (1075 + e) * TWO52 + (x / Pow2(e)).Floor - TWO52
  }

  lemma StoreExact(n: int, e: int)
    requires 0 <= n < TWO51
    ensures Scale(ALPHA + n, e) > 0.0
    ensures ToBits(Scale(ALPHA + n, e)) == (2151 + 2 * e) * TWO51 + n
  {
    var x, k := Scale(ALPHA + n, e), ALPHA + n;
    ScaleOrder(TWO52, k, e);
    ScaleOrder(k, TWO53, e);
    ScaleOrder(0, k, e);
    ScaleAbs(0, e);
    BinadeUnique(x, e);
    Divide(k as real, Pow2(e), x);
  }

  /** Reads a word and the eight carry bits above it back out of a stored double. */
  lemma StoredBits(code: int, n: int)
    requires 0 <= n < 0x100_0000_0000
    ensures (code * TWO51 + n) % B32 == n % B32
    ensures (code * TWO51 + n) / B32 % 256 == n / B32
  {
    var q, r := n / B32, n % B32;
    Division(code * TWO51 + n, code * 0x8_0000 + q, r, B32);
    Division(code * 0x8_0000 + q, code * 0x800, q, 256);
  }

  const ALL64 := 0xffff_ffff_ffff_ffff

  /** x & mask on 64 bits, for a mask of no bits or of all bits. */
  function And(x: int, mask: int): int
    requires mask == 0 || mask == ALL64
  {
    if mask == 0 then 0 else x
  }

  /** The carries between the four words read back from the stored doubles. */
  method ReadWords(d0: int, d1: int, d2: int, d3: int, ghost n0: int, ghost n1: int, ghost n2: int, ghost n3: int)
    returns (f0: int, f1: int, f2: int, f3: int, f4: int)
    requires d0 == 2151 * TWO51 + n0 && d1 == 2215 * TWO51 + n1 && d2 == 2279 * TWO51 + n2 && d3 == 2343 * TWO51 + n3
    requires 0 <= n0 < 0x80_0000_0000 && 0 <= n1 < 0x80_0000_0000 && 0 <= n2 < 0x80_0000_0000
    requires 0 <= n3 < 0x80_0000_0000
    ensures 0 <= f0 < B32 && 0 <= f1 < B32 && 0 <= f2 < B32 && 0 <= f3 < B32
    ensures n0 + B32 * n1 + B64 * n2 + B96 * n3 == f0 + B32 * f1 + B64 * f2 + B96 * f3 + B128 * f4
  {
    var f;
    f0, f := ReadWord(d0, 2151, n0);
    ghost var e1 := n1 + f;
    f1, f := ReadWord(d1 + f, 2215, e1);
    ghost var e2 := n2 + f;
    f2, f := ReadWord(d2 + f, 2279, e2);
    ghost var e3 := n3 + f;
    f3, f4 := ReadWord(d3 + f, 2343, e3);
  }

  method ReadWord(d: int, ghost code: int, ghost n: int) returns (word: int, carry: int)
    requires d == code * TWO51 + n && 0 <= n < 0x100_0000_0000
    ensures 0 <= word < B32 && 0 <= carry < 256 && n == word + B32 * carry
  {
    StoredBits(code, n);
    word := d % B32;
    carry := d / B32 % 256;
  }

  /** The chain that adds 5 to the words f0..f4. */
  method AddFive(f0: int, f1: int, f2: int, f3: int, f4: int) returns (g0: int, g1: int, g2: int, g3: int, g4: int)
    requires 0 <= f0 < B32 && 0 <= f1 < B32 && 0 <= f2 < B32 && 0 <= f3 < B32
    ensures 0 <= g0 < B32 && 0 <= g1 < B32 && 0 <= g2 < B32 && 0 <= g3 < B32
    ensures f0 + B32 * f1 + B64 * f2 + B96 * f3 + B128 * f4 + 5 == g0 + B32 * g1 + B64 * g2 + B96 * g3 + B128 * g4
  {
    g0 := f0 + 5;
    var g := g0 / B32;
    g0 := g0 % B32;
    g1 := f1 + g;
    g := g1 / B32;
    g1 := g1 % B32;
    g2 := f2 + g;
    g := g2 / B32;
    g2 := g2 % B32;
    g3 := f3 + g;
    g := g3 / B32;
    g3 := g3 % B32;
    g4 := f4 + g;
  }

  /** From the four stored doubles to four 32-bit words: f beside f + 5 - 2^130, and the
      choice between them by the sign of the top limb. */
  method Select(d0: int, d1: int, d2: int, d3: int, ghost n0: int, ghost n1: int, ghost n2: int, ghost n3: int)
    returns (f0: int, f1: int, f2: int, f3: int)
    requires d0 == 2151 * TWO51 + n0 && d1 == 2215 * TWO51 + n1 && d2 == 2279 * TWO51 + n2 && d3 == 2343 * TWO51 + n3
    requires 0 <= n0 < 0x80_0000_0000 && 0 <= n1 < 0x80_0000_0000 && 0 <= n2 < 0x80_0000_0000
    requires 0 <= n3 < 0x80_0000_0000
    requires n0 + B32 * n1 + B64 * n2 + B96 * n3 < 2 * P
    ensures 0 <= f0 < B32 && 0 <= f1 < B32 && 0 <= f2 < B32 && 0 <= f3 < B32
    ensures f0 + B32 * f1 + B64 * f2 + B96 * f3 == (n0 + B32 * n1 + B64 * n2 + B96 * n3) % P % B128
  {
    var f4;
    f0, f1, f2, f3, f4 := ReadWords(d0, d1, d2, d3, n0, n1, n2, n3);
    var g0, g1, g2, g3, g4 := AddFive(f0, f1, f2, f3, f4);
    Reduced(n0 + B32 * n1 + B64 * n2 + B96 * n3, f0 + B32 * f1 + B64 * f2 + B96 * f3, f4,
            g0 + B32 * g1 + B64 * g2 + B96 * g3, g4);
    g4 := (g4 - 4) % B64;
    var f := if g4 >= B64 / 2 then ALL64 else 0;
    f0 := And(f0, f) + And(g0, ALL64 - f);
    f1 := And(f1, f) + And(g1, ALL64 - f);
    f2 := And(f2, f) + And(g2, ALL64 - f);
    f3 := And(f3, f) + And(g3, ALL64 - f);
  }

  /** Adding 5 carries into bit 130 exactly when the value is at least 2^130 - 5. */
  lemma Reduced(total: int, low: int, f4: int, glow: int, g4: int)
    requires 0 <= total < 2 * P && 0 <= low < B128 && 0 <= glow < B128
    requires total == low + B128 * f4 && total + 5 == glow + B128 * g4
    ensures 0 <= g4 < 8
    ensures g4 < 4 ==> total % P % B128 == low
    ensures g4 >= 4 ==> total % P % B128 == glow
  {
    if g4 < 4 {
      assert total < P;
    } else {
      assert total >= P && total % P == total - P;
      assert total - P == glow + B128 * (g4 - 4);
    }
  }

  /** The last carry, and the four sums with their offsets, which add up to 2^130 - 5. */
  method LastCarry(h: Registers, ghost k: Limbs)
    returns (d0: int, d1: int, d2: int, d3: int, ghost n0: int, ghost n1: int, ghost n2: int, ghost n3: int)
    requires Holds(h, k) && k.Product()
    ensures d0 == 2151 * TWO51 + n0 && d1 == 2215 * TWO51 + n1 && d2 == 2279 * TWO51 + n2 && d3 == 2343 * TWO51 + n3
    ensures 0 <= n0 < 0x80_0000_0000 && 0 <= n1 < 0x80_0000_0000 && 0 <= n2 < 0x80_0000_0000 && 0 <= n3 < 0x80_0000_0000
    ensures 0 <= n0 + B32 * n1 + B64 * n2 + B96 * n3 < 2 * P
    ensures (n0 + B32 * n1 + B64 * n2 + B96 * n3) % P == k.Value() % P
  {
    hide Pow2, Scale, IntPow2, FAdd, FSub, FMul;
    IntPowers();
    Constants();
    var x0, x1, x2, x3, x4, x5, x6, x7;
    var y7, y6, y5, y4, y3, y2, y1, y0;
    ghost var c7, c6, c5, c4, c3, c2, c1, c0;
    y7, x7, c7 := RoundOff(h.h7, ALPHA130, k.k7, 112, 18, 0x4_0000);
    y0, x0, c0 := RoundOff(h.h0, ALPHA32, k.k0, 0, 32, 0x1_0000_0000);
    y1, x1, c1 := RoundOff(h.h1, ALPHA32, k.k1, 16, 16, 0x1_0000);
    y2, x2, c2 := RoundOff(h.h2, ALPHA64, k.k2, 32, 32, 0x1_0000_0000);
    y3, x3, c3 := RoundOff(h.h3, ALPHA64, k.k3, 48, 16, 0x1_0000);
    y4, x4, c4 := RoundOff(h.h4, ALPHA96, k.k4, 64, 32, 0x1_0000_0000);
    y5, x5, c5 := RoundOff(h.h5, ALPHA96, k.k5, 80, 16, 0x1_0000);
    ghost var e0, e1 := k.k0 - c0 * 0x1_0000_0000, k.k1 - c1 * 0x1_0000;
    ghost var e2, e3 := k.k2 - c2 * 0x1_0000_0000, k.k3 - c3 * 0x1_0000;
    ghost var e4, e5 := k.k4 - c4 * 0x1_0000_0000, k.k5 - c5 * 0x1_0000;
    ghost var e7 := k.k7 - c7 * 0x4_0000;
    ghost var k6 := k.k6 + e7 * 0x1_0000;
    Rebase(e7, 16, 96);
    AddExact(k.k6, e7 * 0x1_0000, 96);
    var h6 := FAdd(h.h6, x7);
    y6, x6, c6 := RoundOff(h6, ALPHA130, k6, 96, 34, 0x4_0000_0000);
    ghost var e6 := k6 - c6 * 0x4_0000_0000;
    y7 := FMul(y7, SCALE);
    y6 := FMul(y6, SCALE);
    n0 := 0x2_0000_0000 - 5 + (e0 + 5 * c7 + 5 * c6 + (e1 * 0x1_0000));
    n1 := 0x2_0000_0000 - 2 + (e2 + c0 + (e3 * 0x1_0000 + c1));
    n2 := 0x2_0000_0000 - 2 + (e4 + c2 + (e5 * 0x1_0000 + c3));
    n3 := 0x4_0000_0000 - 2 + (e6 + c4 + c5);
    d0 := LowestSum(x0, y7, y6, x1, e0, c7, c6, e1, n0);
    d1 := MiddleSum(x2, y0, x3, y1, OFFSET1, e2, c0, e3, c1, n1, 32);
    d2 := MiddleSum(x4, y2, x5, y3, OFFSET2, e4, c2, e5, c3, n2, 64);
    d3 := TopSum(x6, y4, y5, e6, c4, c5, n3);
    ghost var total := n0 + B32 * n1 + B64 * n2 + B96 * n3;
    assert total == k.Value() - P * (c7 + c6 - 1);
    SameResidue(k.Value(), total, c7 + c6 - 1, P);
  }

  method LowestSum(x0: real, y7: real, y6: real, x1: real, ghost e0: int, ghost c7: int, ghost c6: int,
                   ghost e1: int, ghost n: int)
    returns (d: int)
    requires x0 == Scale(e0, 0) && y7 == FMul(Scale(c7, 130), SCALE) && y6 == FMul(Scale(c6, 130), SCALE)
    requires x1 == Scale(e1, 16)
    requires -0x8000_0000 <= e0 <= 0x8000_0000 && -0x8000 <= e1 <= 0x8000
    requires -0x20_0000_0000 < c7 < 0x20_0000_0000 && -0x20_0000_0000 < c6 < 0x20_0000_0000
    requires n == 0x2_0000_0000 - 5 + (e0 + 5 * c7 + 5 * c6 + (e1 * 0x1_0000)) && 0 <= n < TWO51
    ensures d == 2151 * TWO51 + n
  {
    hide Pow2, Scale, IntPow2, FAdd, FSub, FMul, ToBits;
    IntPowers();
    Constants();
    WrapExact(c7);
    WrapExact(c6);
    Rebase(e1, 16, 0);
    AddExact(e0, 5 * c7, 0);
    AddExact(e0 + 5 * c7, 5 * c6, 0);
    AddExact(e0 + 5 * c7 + 5 * c6, e1 * 0x1_0000, 0);
    AddExact(n - 0x2_0000_0000 + 5, ALPHA + 0x2_0000_0000 - 5, 0);
    StoreExact(n, 0);
    d := ToBits(FAdd(FAdd(FAdd(FAdd(x0, y7), y6), x1), OFFSET0));
  }

  method MiddleSum(x: real, y: real, x': real, y': real, offset: real, ghost a: int, ghost b: int, ghost a': int,
                   ghost b': int, ghost n: int, ghost e: int)
    returns (d: int)
    requires (e == 32 || e == 64) && offset == Scale(ALPHA + 0x2_0000_0000 - 2, e)
    requires x == Scale(a, e) && y == Scale(b, e) && x' == Scale(a', e + 16) && y' == Scale(b', e)
    requires -0x8000_0000 <= a <= 0x8000_0000 && -0x8000 <= a' <= 0x8000
    requires -0x20_0000_0000 < b < 0x20_0000_0000 && -0x20_0000_0000 < b' < 0x20_0000_0000
    requires n == 0x2_0000_0000 - 2 + (a + b + (a' * 0x1_0000 + b')) && 0 <= n < TWO51
    ensures d == (2151 + 2 * e) * TWO51 + n
  {
    hide Pow2, Scale, IntPow2, FAdd, FSub, FMul, ToBits;
    AddExact(a, b, e);
    JoinExact(a', b', e);
    AddExact(a + b, 0x1_0000 * a' + b', e);
    AddExact(n - 0x2_0000_0000 + 2, ALPHA + 0x2_0000_0000 - 2, e);
    StoreExact(n, e);
    d := ToBits(FAdd(FAdd(FAdd(x, y), FAdd(x', y')), offset));
  }

  method TopSum(x6: real, y4: real, y5: real, ghost e6: int, ghost c4: int, ghost c5: int, ghost n: int)
    returns (d: int)
    requires x6 == Scale(e6, 96) && y4 == Scale(c4, 96) && y5 == Scale(c5, 96)
    requires -0x2_0000_0000 <= e6 <= 0x2_0000_0000
    requires -0x20_0000_0000 < c4 < 0x20_0000_0000 && -0x20_0000_0000 < c5 < 0x20_0000_0000
    requires n == 0x4_0000_0000 - 2 + (e6 + c4 + c5) && 0 <= n < TWO51
    ensures d == 2343 * TWO51 + n
  {
    hide Pow2, Scale, IntPow2, FAdd, FSub, FMul, ToBits;
    Constants();
    AddExact(e6, c4, 96);
    AddExact(e6 + c4, c5, 96);
    AddExact(n - 0x4_0000_0000 + 2, ALPHA + 0x4_0000_0000 - 2, 96);
    StoreExact(n, 96);
    d := ToBits(FAdd(FAdd(FAdd(x6, y4), y5), OFFSET3));
  }

  /** Writes the low 32 bits of f at out[i..i+4] and returns the rest. */
  method WriteWord(out: array<Byte>, i: nat, f: nat) returns (carry: nat)
    requires i + 4 <= out.Length
    modifies out
    ensures f == Word(out[i], out[i + 1], out[i + 2], out[i + 3]) + B32 * carry
    ensures forall j :: 0 <= j < out.Length && !(i <= j < i + 4) ==> out[j] == old(out[j])
  {
    carry := f;
    out[i] := carry % 256;
    carry := carry / 256;
    out[i + 1] := carry % 256;
    carry := carry / 256;
    out[i + 2] := carry % 256;
    carry := carry / 256;
    out[i + 3] := carry % 256;
    carry := carry / 256;
  }

  /** Four words written one after another, each with the carry out of the one below. */
  lemma WordsSum(f0: int, f1: int, f2: int, f3: int, o0: int, o1: int, o2: int, o3: int, c0: int, c1: int,
                 c2: int, c3: int)
    requires f0 == o0 + B32 * c0 && f1 + c0 == o1 + B32 * c1 && f2 + c1 == o2 + B32 * c2 && f3 + c2 == o3 + B32 * c3
    requires 0 <= o0 < B32 && 0 <= o1 < B32 && 0 <= o2 < B32 && 0 <= o3 < B32
    ensures o0 + B32 * o1 + B64 * o2 + B96 * o3 == (f0 + B32 * f1 + B64 * f2 + B96 * f3) % B128
  {
    Division(f0 + B32 * f1 + B64 * f2 + B96 * f3, c3, o0 + B32 * o1 + B64 * o2 + B96 * o3, B128);
  }

  /** Adds s and writes the sum modulo 2^128, little-endian. */
  method WriteTag(out: array<Byte>, s: array<Byte>, f0: nat, f1: nat, f2: nat, f3: nat)
    requires out.Length == 16 && s.Length == 16
    modifies out
    ensures Spec.LittleEndian(out[..])
         == (f0 + B32 * f1 + B64 * f2 + B96 * f3 + Spec.LittleEndian(old(s[..]))) % B128
  {
    hide Word, Spec.LittleEndian;
    LittleEndian16(s[..]);
    WordRange(s[0], s[1], s[2], s[3]);
    WordRange(s[4], s[5], s[6], s[7]);
    WordRange(s[8], s[9], s[10], s[11]);
    WordRange(s[12], s[13], s[14], s[15]);
    var f0' := f0 + Word(s[0], s[1], s[2], s[3]);
    var f1' := f1 + Word(s[4], s[5], s[6], s[7]);
    var f2' := f2 + Word(s[8], s[9], s[10], s[11]);
    var f3' := f3 + Word(s[12], s[13], s[14], s[15]);
    var c0 := WriteWord(out, 0, f0');
    var c1 := WriteWord(out, 4, f1' + c0);
    var c2 := WriteWord(out, 8, f2' + c1);
    var c3 := WriteWord(out, 12, f3' + c2);
    WordRange(out[0], out[1], out[2], out[3]);
    WordRange(out[4], out[5], out[6], out[7]);
    WordRange(out[8], out[9], out[10], out[11]);
    WordRange(out[12], out[13], out[14], out[15]);
    WordsSum(f0', f1', f2', f3', Word(out[0], out[1], out[2], out[3]), Word(out[4], out[5], out[6], out[7]),
             Word(out[8], out[9], out[10], out[11]), Word(out[12], out[13], out[14], out[15]), c0, c1, c2, c3);
    LittleEndian16(out[..]);
  }

  // ------ the whole function

  method CarryAndMultiply(h: Registers, kr: KeyRegisters, ghost k: Limbs, ghost key: Key)
    returns (h': Registers, ghost k': Limbs)
    requires Holds(h, k) && k.Bounded() && KeyHolds(kr, key) && key.Valid()
    ensures Holds(h', k') && k'.Product()
    ensures k'.Value() % P == k.Value() * key.Value() % P
  {
    hide Holds, KeyHolds;
    var x0, x2, x4, x6, x, q := CarryRegisters(h, k);
    h' := MultiplyRegisters(kr, x0, x2, x4, x6, key, x);
    k' := key.Times(x);
    ghost var q' := TimesIsProduct(key, x);
    ProductResidue(k.Value(), x.Value(), key.Value(), k'.Value(), q, q');
  }

  lemma ProductResidue(v: int, x: int, r: int, y: int, q: int, q': int)
    requires v == x + P * q && y == r * x - P * q'
    ensures y % P == v * r % P
  {
    assert v * r == y + P * (q * r + q') by {
      assert v * r == x * r + P * (q * r);
    }
    SameResidue(v * r, y, q * r + q', P);
  }

  /** A register value only counts modulo 2^130 - 5. */
  lemma StepResidue(v: int, w: int, b: int, r: int)
    requires v % P == w
    ensures (w + b) * r % P == (v + b) * r % P
  {
    var q := v / P;
    assert (v + b) * r == (w + b) * r + P * (q * r) by {
      assert v + b == (w + b) + P * q;
      assert ((w + b) + P * q) * r == (w + b) * r + P * q * r;
    }
    SameResidue((v + b) * r, (w + b) * r, q * r, P);
  }

  /** The first 16 bytes of what is left are one block. */
  lemma TakeBlock(v: int, t: seq<Byte>, r: int)
    requires |t| >= 16
    ensures Spec.Accumulate(v % P, t, r)
         == Spec.Accumulate((v + Spec.BlockNumber(t[..16])) * r % P, t[16..], r)
  {
    StepResidue(v, v % P, Spec.BlockNumber(t[..16]), r);
  }

  /** A shorter rest is the last block, and no rest is the end. */
  lemma TakeLast(v: int, t: seq<Byte>, r: int)
    requires |t| < 16
    ensures Spec.Accumulate(v % P, t, r) == if t == [] then v % P else (v + Spec.BlockNumber(t)) * r % P
  {
    if t != [] {
      StepResidue(v, v % P, Spec.BlockNumber(t), r);
    }
  }

  /** The block loop and the tail: the register value is congruent to the accumulator of
      RFC 8439 after the whole message. */
  method Absorb(m: array<Byte>, l: nat, kr: KeyRegisters, ghost key: Key) returns (h: Registers, ghost k: Limbs)
    requires l <= m.Length && KeyHolds(kr, key) && key.Valid()
    ensures Holds(h, k) && k.Product()
    ensures k.Value() % P == Spec.Accumulate(0, m[..l], key.Value())
  {
    hide Holds, KeyHolds, Spec.LittleEndian, Spec.BlockNumber, Spec.Accumulate, Limbs.Bounded, Limbs.Product,
      Limbs.Value, Key.Value, Key.Valid;
    ghost var R, msg := key.Value(), m[..l];
    h, k := ZeroRegisters();
    var p, left := 0, l;
    assert msg[0..] == msg;
    if left >= 16 {
      TakeBlock(0, msg, R);
      assert m[0..16] == msg[..16];
      h, k := AddBlockAt(h, m, 0, k);
      p, left := 16, left - 16;
      while left >= 16
        invariant p + left == l && 16 <= p
        invariant Holds(h, k) && k.Bounded()
        invariant Spec.Accumulate(k.Value() * R % P, msg[p..], R) == Spec.Accumulate(0, msg, R)
      {
        h, k := CarryAndMultiply(h, kr, k, key);
        TakeBlock(k.Value(), msg[p..], R);
        assert m[p..p + 16] == msg[p..][..16] && msg[p..][16..] == msg[p + 16..];
        h, k := AddBlockAt(h, m, p, k);
        p, left := p + 16, left - 16;
      }
      h, k := CarryAndMultiply(h, kr, k, key);
    }
    TakeLast(k.Value(), msg[p..], R);
    if left != 0 {
      assert m[p..p + left] == msg[p..];
      h, k := AbsorbTail(h, m, p, left, k);
      h, k := CarryAndMultiply(h, kr, k, key);
    }
  }

  method AbsorbTail(h: Registers, m: array<Byte>, p: nat, l: nat, ghost k: Limbs)
    returns (h': Registers, ghost k': Limbs)
    requires 1 <= l < 16 && p + l <= m.Length && Holds(h, k) && k.Product()
    ensures Holds(h', k') && k'.Bounded()
    ensures k'.Value() == k.Value() + Spec.BlockNumber(m[p..p + l])
  {
    hide Holds;
    var d0, d1, d2, d3, w0, w1, w2, w3 := TailWords(m, p, l);
    h' := AddWords(h, d0, d1, d2, d3, k, w0, w1, w2, w3);
    k' := k.AddBlock(w0, w1, w2, w3);
  }

  /** poly1305_53: the tag of the first l bytes of m under the clamped key r and the pad s.
      Nothing is asked about aliasing: out may be any of the other arrays. */
  method Poly1305(out: array<Byte>, r: array<Byte>, s: array<Byte>, m: array<Byte>, l: nat)
    requires out.Length == 16 && s.Length == 16 && Spec.Clamped(r[..]) && l <= m.Length
    modifies out
    ensures Spec.LittleEndian(out[..])
         == Spec.Tag(old(m[..l]), Spec.LittleEndian(old(r[..])), Spec.LittleEndian(old(s[..])))
  {
    hide Holds, KeyHolds, Spec.LittleEndian, Spec.Accumulate, Limbs.Product, Limbs.Value;
    var kr, key := SplitKey(r);
    var h, k := Absorb(m, l, kr, key);
    var d0, d1, d2, d3, n0, n1, n2, n3 := LastCarry(h, k);
    var f0, f1, f2, f3 := Select(d0, d1, d2, d3, n0, n1, n2, n3);
    SumResidue(k.Value() % P, Spec.LittleEndian(s[..]));
    WriteTag(out, s, f0, f1, f2, f3);
  }

  lemma SumResidue(a: int, b: int)
    ensures (a % B128 + b) % B128 == (a + b) % B128
  {
    var q := a / B128;
    Division(a + b, q + (a % B128 + b) / B128, (a % B128 + b) % B128, B128);
  }

  method ZeroRegisters() returns (h: Registers, ghost k: Limbs)
    ensures Holds(h, k) && k.Product() && k.Value() == 0
  {
    Constants();
    SubExact(ALPHA, ALPHA, 32);
    var z := FSub(ALPHA32, ALPHA32);
    h := Registers(z, z, z, z, z, z, z, z);
    k := Limbs(0, 0, 0, 0, 0, 0, 0, 0);
  }
}
