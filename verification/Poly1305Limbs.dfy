/** The integers behind the floating-point registers of poly1305_53: each register holds an
    integer times a fixed power of two, and this module says what one carry and one
    multiplication do to those integers modulo 2^130 - 5. */
module Poly1305Limbs {

  import opened Poly1305Words

  /** h0..h7: register h_i is k_i * 2^(16 i). */
  datatype Limbs = Limbs(k0: int, k1: int, k2: int, k3: int, k4: int, k5: int, k6: int, k7: int) {
    function Value(): int {
      k0 + B16 * k1 + B32 * k2 + B48 * k3 + B64 * k4 + B80 * k5 + B96 * k6 + B112 * k7
    }

    /** The bounds that hold each time the block loop starts over. */
    predicate Bounded() {
      && -3_150_000_000_000_000 <= k0 <= 3_150_000_000_000_000
      && -213_000_000_000_000 <= k1 <= 616_300_000_000_000
      && -4_500_000_000_000_000 <= k2 <= 4_500_000_000_000_000
      && -205_000_000_000_000 <= k3 <= 602_300_000_000_000
      && -5_823_000_000_000_000 <= k4 <= 5_823_000_000_000_000
      && -197_000_000_000_000 <= k5 <= 870_000_000_000_000
      && -7_878_000_000_000_000 <= k6 <= 7_878_000_000_000_000
      && -177_000_000_000_000 <= k7 <= 276_000_000_000_000
    }

    /** The tighter bounds right after a multiplication, before a block is added. */
    predicate Product() {
      && Bounded()
      && -3_149_100_000_000_000 <= k0 <= 3_149_100_000_000_000
      && k1 <= 334_800_000_000_000
      && k3 <= 320_800_000_000_000
      && k5 <= 307_000_000_000_000
    }

    function AddBlock(m0: int, m1: int, m2: int, m3: int): Limbs {
      this.(k0 := k0 + m0, k1 := k1 + B16 * m1, k3 := k3 + B16 * m2, k5 := k5 + B16 * m3)
    }
  }

  /** x0, x2, x4, x6: register x_2i is n_2i * 2^(32 i). */
  datatype Carried = Carried(n0: int, n2: int, n4: int, n6: int) {
    function Value(): int {
      n0 + B32 * n2 + B64 * n4 + B96 * n6
    }

    predicate Bounded() {
      && -7_700_000_000 <= n0 <= 9_600_000_000
      && -7_600_000_000 <= n2 <= 13_700_000_000
      && -7_500_000_000 <= n4 <= 13_500_000_000
      && -20_200_000_000 <= n6 <= 30_500_000_000
    }
  }

  /** The split key: r_i = (l_i + 2^16 u_i) * 2^(32 i), and 5 * 2^-130 r_i =
      (s_i + 2^16 t_i) * 2^(32 i - 128). */
  datatype Key = Key(l0: int, u0: int, l1: int, u1: int, l2: int, u2: int, l3: int, u3: int,
                     s1: int, t1: int, s2: int, t2: int, s3: int, t3: int) {
    function Value(): int {
      l0 + B16 * u0 + B32 * (l1 + B16 * u1) + B64 * (l2 + B16 * u2) + B96 * (l3 + B16 * u3)
    }

    predicate Valid() {
      && 0 <= u0 <= 4096 && 0 <= u1 <= 4096 && 0 <= u2 <= 4096 && 0 <= u3 <= 4096
      && 0 <= t1 <= 5120 && 0 <= t2 <= 5120 && 0 <= t3 <= 5120
      && -131072 <= l0 <= 131072 && -131072 <= l1 <= 131072
      && -131072 <= l2 <= 131072 && -32768 <= l3 <= 32768
      && -32768 <= s1 <= 32768 && -32768 <= s2 <= 32768 && -32768 <= s3 <= 32768
      && 4 * (s1 + B16 * t1) == 5 * (l1 + B16 * u1)
      && 4 * (s2 + B16 * t2) == 5 * (l2 + B16 * u2)
      && 4 * (s3 + B16 * t3) == 5 * (l3 + B16 * u3)
    }

    function Times(x: Carried): Limbs {
      Limbs(l0 * x.n0 + s1 * x.n6 + s2 * x.n4 + s3 * x.n2,
            u0 * x.n0 + t1 * x.n6 + t2 * x.n4 + t3 * x.n2,
            l1 * x.n0 + s2 * x.n6 + s3 * x.n4 + l0 * x.n2,
            u1 * x.n0 + t2 * x.n6 + t3 * x.n4 + u0 * x.n2,
            l2 * x.n0 + s3 * x.n6 + l0 * x.n4 + l1 * x.n2,
            u2 * x.n0 + t3 * x.n6 + u0 * x.n4 + u1 * x.n2,
            l3 * x.n0 + l0 * x.n6 + l1 * x.n4 + l2 * x.n2,
            u3 * x.n0 + u0 * x.n6 + u1 * x.n4 + u2 * x.n2)
    }
  }

  lemma Distribute(l: int, u: int, w: int, c: int, x: int)
    requires l + B16 * u == c * w
    ensures l * x + B16 * (u * x) == c * (w * x)
  {
    assert (l + B16 * u) * x == l * x + B16 * (u * x);
    assert (c * w) * x == c * (w * x);
  }

  /** The four pairs of limbs, in terms of the unsplit key (a0, 4 a1, 4 a2, 4 a3). */
  lemma PairSums(k: Key, x: Carried, a0: int, a1: int, a2: int, a3: int)
    requires a0 == k.l0 + B16 * k.u0
    requires 4 * a1 == k.l1 + B16 * k.u1 && 5 * a1 == k.s1 + B16 * k.t1
    requires 4 * a2 == k.l2 + B16 * k.u2 && 5 * a2 == k.s2 + B16 * k.t2
    requires 4 * a3 == k.l3 + B16 * k.u3 && 5 * a3 == k.s3 + B16 * k.t3
    ensures var h := k.Times(x);
            && h.k0 + B16 * h.k1 == a0 * x.n0 + 5 * (a1 * x.n6) + 5 * (a2 * x.n4) + 5 * (a3 * x.n2)
            && h.k2 + B16 * h.k3 == 4 * (a1 * x.n0) + 5 * (a2 * x.n6) + 5 * (a3 * x.n4) + a0 * x.n2
            && h.k4 + B16 * h.k5 == 4 * (a2 * x.n0) + 5 * (a3 * x.n6) + a0 * x.n4 + 4 * (a1 * x.n2)
            && h.k6 + B16 * h.k7 == 4 * (a3 * x.n0) + a0 * x.n6 + 4 * (a1 * x.n4) + 4 * (a2 * x.n2)
  {
    var n0, n2, n4, n6 := x.n0, x.n2, x.n4, x.n6;
    Distribute(k.l0, k.u0, a0, 1, n0);
    Distribute(k.l0, k.u0, a0, 1, n2);
    Distribute(k.l0, k.u0, a0, 1, n4);
    Distribute(k.l0, k.u0, a0, 1, n6);
    Distribute(k.l1, k.u1, a1, 4, n0);
    Distribute(k.l1, k.u1, a1, 4, n2);
    Distribute(k.l1, k.u1, a1, 4, n4);
    Distribute(k.l2, k.u2, a2, 4, n0);
    Distribute(k.l2, k.u2, a2, 4, n2);
    Distribute(k.l3, k.u3, a3, 4, n0);
    Distribute(k.s1, k.t1, a1, 5, n6);
    Distribute(k.s2, k.t2, a2, 5, n4);
    Distribute(k.s2, k.t2, a2, 5, n6);
    Distribute(k.s3, k.t3, a3, 5, n2);
    Distribute(k.s3, k.t3, a3, 5, n4);
    Distribute(k.s3, k.t3, a3, 5, n6);
  }

  /** The eight dot products add up to the product of key and value, less a multiple of
      2^130 - 5: this is where the clamp's divisibility by 4 is needed. */
  lemma TimesIsProduct(k: Key, x: Carried) returns (q: int)
    requires k.Valid()
    ensures k.Times(x).Value() == k.Value() * x.Value() - P * q
  {
    var a0 := k.l0 + B16 * k.u0;
    var a1, a2, a3 := (k.s1 + B16 * k.t1) / 5, (k.s2 + B16 * k.t2) / 5, (k.s3 + B16 * k.t3) / 5;
    PairSums(k, x, a0, a1, a2, a3);
    var h := k.Times(x);
    q := Wrap(a0, a1, a2, a3, x.n0, x.n2, x.n4, x.n6,
              h.k0 + B16 * h.k1, h.k2 + B16 * h.k3, h.k4 + B16 * h.k5, h.k6 + B16 * h.k7,
              k.Value(), x.Value());
  }

  /** Each product of weight 2^130 or more was folded back with a factor 5. */
  lemma Wrap(a0: int, a1: int, a2: int, a3: int, n0: int, n2: int, n4: int, n6: int, e1: int, e2: int, e3: int, e4: int,
             kv: int, xv: int)
    returns (q: int)
    requires kv == a0 + B32 * (4 * a1) + B64 * (4 * a2) + B96 * (4 * a3)
    requires xv == n0 + B32 * n2 + B64 * n4 + B96 * n6
    requires e1 == a0 * n0 + 5 * (a1 * n6) + 5 * (a2 * n4) + 5 * (a3 * n2)
    requires e2 == 4 * (a1 * n0) + 5 * (a2 * n6) + 5 * (a3 * n4) + a0 * n2
    requires e3 == 4 * (a2 * n0) + 5 * (a3 * n6) + a0 * n4 + 4 * (a1 * n2)
    requires e4 == 4 * (a3 * n0) + a0 * n6 + 4 * (a1 * n4) + 4 * (a2 * n2)
    ensures e1 + B32 * e2 + B64 * e3 + B96 * e4 == kv * xv - P * q
  {
    q := a1 * n6 + a2 * n4 + B32 * (a2 * n6) + a3 * n2 + B32 * (a3 * n4) + B64 * (a3 * n6);
    Expand(a0, a1, a2, a3, n0, n2, n4, n6);
  }

  lemma Expand(a0: int, a1: int, a2: int, a3: int, n0: int, n2: int, n4: int, n6: int)
    ensures (a0 + B32 * (4 * a1) + B64 * (4 * a2) + B96 * (4 * a3)) * (n0 + B32 * n2 + B64 * n4 + B96 * n6)
         == a0 * n0 + B32 * (a0 * n2) + B64 * (a0 * n4) + B96 * (a0 * n6)
          + 4 * B32 * (a1 * n0 + B32 * (a1 * n2) + B64 * (a1 * n4) + B96 * (a1 * n6))
          + 4 * B64 * (a2 * n0 + B32 * (a2 * n2) + B64 * (a2 * n4) + B96 * (a2 * n6))
          + 4 * B96 * (a3 * n0 + B32 * (a3 * n2) + B64 * (a3 * n4) + B96 * (a3 * n6))
  {
  }

  /** A signed factor of at most m times one between lo and hi. */
  lemma Symmetric(l: int, m: int, x: int, b: int)
    requires -m <= l <= m && -b <= x <= b
    ensures -m * b <= l * x <= m * b
  {
    assert (m - l) * (b + x) >= 0 && (m + l) * (b - x) >= 0;
    assert (m - l) * (b - x) >= 0 && (m + l) * (b + x) >= 0;
  }

  lemma Nonnegative(u: int, m: int, x: int, lo: int, hi: int)
    requires 0 <= u <= m && lo <= x <= hi && lo <= 0 <= hi
    ensures m * lo <= u * x <= m * hi
  {
    assert u * (x - lo) >= 0 && (m - u) * -lo >= 0;
    assert u * (hi - x) >= 0 && (m - u) * hi >= 0;
  }

  /** Multiplying keeps every limb within 53 bits. */
  lemma TimesIsBounded(k: Key, x: Carried)
    requires k.Valid() && x.Bounded()
    ensures k.Times(x).Product()
  {
    LowTimes(k, x);
    HighTimes(k, x);
  }

  lemma LowTimes(k: Key, x: Carried)
    requires k.Valid() && x.Bounded()
    ensures var h := k.Times(x);
            && -3_149_100_000_000_000 <= h.k0 <= 3_149_100_000_000_000
            && -4_500_000_000_000_000 <= h.k2 <= 4_500_000_000_000_000
            && -5_823_000_000_000_000 <= h.k4 <= 5_823_000_000_000_000
            && -7_878_000_000_000_000 <= h.k6 <= 7_878_000_000_000_000
  {
    Symmetric(k.l0, 131072, x.n0, 9_600_000_000);
    Symmetric(k.l1, 131072, x.n0, 9_600_000_000);
    Symmetric(k.l2, 131072, x.n0, 9_600_000_000);
    Symmetric(k.l3, 32768, x.n0, 9_600_000_000);
    Symmetric(k.l0, 131072, x.n2, 13_700_000_000);
    Symmetric(k.l1, 131072, x.n2, 13_700_000_000);
    Symmetric(k.l2, 131072, x.n2, 13_700_000_000);
    Symmetric(k.s3, 32768, x.n2, 13_700_000_000);
    Symmetric(k.l0, 131072, x.n4, 13_500_000_000);
    Symmetric(k.l1, 131072, x.n4, 13_500_000_000);
    Symmetric(k.s2, 32768, x.n4, 13_500_000_000);
    Symmetric(k.s3, 32768, x.n4, 13_500_000_000);
    Symmetric(k.l0, 131072, x.n6, 30_500_000_000);
    Symmetric(k.s1, 32768, x.n6, 30_500_000_000);
    Symmetric(k.s2, 32768, x.n6, 30_500_000_000);
    Symmetric(k.s3, 32768, x.n6, 30_500_000_000);
  }

  lemma HighTimes(k: Key, x: Carried)
    requires k.Valid() && x.Bounded()
    ensures var h := k.Times(x);
            && -213_000_000_000_000 <= h.k1 <= 334_800_000_000_000
            && -205_000_000_000_000 <= h.k3 <= 320_800_000_000_000
            && -197_000_000_000_000 <= h.k5 <= 307_000_000_000_000
            && -177_000_000_000_000 <= h.k7 <= 276_000_000_000_000
  {
    Nonnegative(k.u0, 4096, x.n0, -7_700_000_000, 9_600_000_000);
    Nonnegative(k.u1, 4096, x.n0, -7_700_000_000, 9_600_000_000);
    Nonnegative(k.u2, 4096, x.n0, -7_700_000_000, 9_600_000_000);
    Nonnegative(k.u3, 4096, x.n0, -7_700_000_000, 9_600_000_000);
    Nonnegative(k.u0, 4096, x.n2, -7_600_000_000, 13_700_000_000);
    Nonnegative(k.u1, 4096, x.n2, -7_600_000_000, 13_700_000_000);
    Nonnegative(k.u2, 4096, x.n2, -7_600_000_000, 13_700_000_000);
    Nonnegative(k.t3, 5120, x.n2, -7_600_000_000, 13_700_000_000);
    Nonnegative(k.u0, 4096, x.n4, -7_500_000_000, 13_500_000_000);
    Nonnegative(k.u1, 4096, x.n4, -7_500_000_000, 13_500_000_000);
    Nonnegative(k.t2, 5120, x.n4, -7_500_000_000, 13_500_000_000);
    Nonnegative(k.t3, 5120, x.n4, -7_500_000_000, 13_500_000_000);
    Nonnegative(k.u0, 4096, x.n6, -20_200_000_000, 30_500_000_000);
    Nonnegative(k.t1, 5120, x.n6, -20_200_000_000, 30_500_000_000);
    Nonnegative(k.t2, 5120, x.n6, -20_200_000_000, 30_500_000_000);
    Nonnegative(k.t3, 5120, x.n6, -20_200_000_000, 30_500_000_000);
  }
}
