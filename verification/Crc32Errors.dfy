/** The CRC tells apart messages of one length that differ only within 32 consecutive bits. */
module Crc32Errors {
  import opened Crc32Table
  import opened Crc32

  // ------ at most 32 coefficients are not reduced

  /** The largest values of n bits, for n up to 32. */
  const LIMITS: seq<Word> := [
    0, 1, 3, 7, 0xf, 0x1f, 0x3f, 0x7f, 0xff, 0x1ff, 0x3ff, 0x7ff, 0xfff, 0x1fff, 0x3fff, 0x7fff, 0xffff,
    0x1ffff, 0x3ffff, 0x7ffff, 0xfffff, 0x1fffff, 0x3fffff, 0x7fffff, 0xffffff,
    0x1ffffff, 0x3ffffff, 0x7ffffff, 0xfffffff, 0x1fffffff, 0x3fffffff, 0x7fffffff, 0xffffffff]

  function Limit(n: nat): Word
    requires n <= 32
  {
    LimitsLength();
    LIMITS[n]
  }

  lemma LimitsLength()
    ensures |LIMITS| == 33
  {
  }

  predicate IsStep(limit: Word, next: Word) { limit < 0x80000000 && next == (limit << 1) | 1 }

  predicate WordAtMost(w: Word, limit: Word) { w <= limit }

  predicate AtMost(a: Poly, limit: Word) { WordAtMost(a.word, limit) }

  function WordBit(b: bool): Word { if b then 1 else 0 }

  lemma BitIs(b: bool)
    ensures Bit(b) == Poly(WordBit(b))
  {
  }

  lemma LowSteps(n: nat)
    requires n < 16
    ensures IsStep(Limit(n), Limit(n + 1))
  {
  }

  lemma HighSteps(n: nat)
    requires 16 <= n < 24
    ensures IsStep(Limit(n), Limit(n + 1))
  {
    if n < 20 {
      assert n == 16 || n == 17 || n == 18 || n == 19;
    } else {
      assert n == 20 || n == 21 || n == 22 || n == 23;
    }
  }

  lemma HighestSteps(n: nat)
    requires 24 <= n < 32
    ensures IsStep(Limit(n), Limit(n + 1))
  {
  }

  lemma AnyStep(n: nat)
    requires n < 32
    ensures IsStep(Limit(n), Limit(n + 1))
  {
    hide Limit, IsStep;
    if n < 16 { LowSteps(n); } else if n < 24 { HighSteps(n); } else { HighestSteps(n); }
  }

  lemma WordStep(w: Word, b: bool, limit: Word, next: Word)
    requires WordAtMost(w, limit) && IsStep(limit, next)
    ensures !WordTop(w) && WordAtMost(WordXor(WordShift(w), WordBit(b)), next)
  {
  }

  lemma LimitStep(a: Poly, b: bool, limit: Word, next: Word)
    requires AtMost(a, limit) && IsStep(limit, next)
    ensures !Top(a) && AtMost(Xor(Shift(a), Bit(b)), next)
  {
    hide WordAtMost, IsStep, WordTop, WordXor, WordShift, WordBit, Bit;
    BitIs(b);
    WordStep(a.word, b, limit, next);
  }

  lemma {:induction false} Unreduced(bits: seq<bool>)
    requires |bits| <= 32
    ensures AtMost(Rem(bits), Limit(|bits|))
    ensures |bits| < 32 ==> !Top(Rem(bits))
  {
    hide Limit, AtMost, IsStep, Xor, Shift, Top, X, Bit;
    if bits == [] {
      FirstLimit();
    } else {
      var n := |bits| - 1;
      Unreduced(bits[..n]);
      AnyStep(n);
      XIs(Rem(bits[..n]));
      LimitStep(Rem(bits[..n]), bits[n], Limit(n), Limit(n + 1));
    }
    if |bits| < 32 {
      AnyStep(|bits|);
      LimitStep(Rem(bits), false, Limit(|bits|), Limit(|bits| + 1));
    }
  }

  lemma FirstLimit()
    ensures AtMost(ZERO, Limit(0))
  {
  }

  lemma WordStepInjective(w: Word, v: Word, b: bool, c: bool)
    requires !WordTop(w) && !WordTop(v) && WordXor(WordShift(w), WordBit(b)) == WordXor(WordShift(v), WordBit(c))
    ensures w == v && b == c
  {
  }

  /** Shifting in a bit loses nothing as long as the top bit is clear. */
  lemma StepInjective(a: Poly, b: Poly, c: bool, d: bool)
    requires !Top(a) && !Top(b) && Xor(Shift(a), Bit(c)) == Xor(Shift(b), Bit(d))
    ensures a == b && c == d
  {
    hide WordTop, WordXor, WordShift, WordBit, Bit;
    BitIs(c);
    BitIs(d);
    WordStepInjective(a.word, b.word, c, d);
  }

  /** Up to 32 coefficients are determined by their remainder. */
  lemma {:induction false} ShortInjective(a: seq<bool>, b: seq<bool>)
    requires |a| == |b| <= 32 && Rem(a) == Rem(b)
    ensures a == b
  {
    hide Xor, Shift, Top, X, Bit, Limit, AtMost;
    if a != [] {
      var n := |a| - 1;
      Unreduced(a[..n]);
      Unreduced(b[..n]);
      XIs(Rem(a[..n]));
      XIs(Rem(b[..n]));
      StepInjective(Rem(a[..n]), Rem(b[..n]), a[n], b[n]);
      ShortInjective(a[..n], b[..n]);
      assert a == a[..n] + [a[n]] && b == b[..n] + [b[n]];
    }
  }

  // ------ differences never vanish

  predicate WordLow(w: Word) { w & 1 != 0 }

  /** The lowest bit of a product by x tells whether it was reduced. */
  lemma LowBit(a: Word)
    ensures WordLow(MulX(a)) <==> WordTop(a)
  {
  }

  lemma ShiftInjective(a: Word, b: Word)
    requires WordShift(a) == WordShift(b) && (WordTop(a) <==> WordTop(b))
    ensures a == b
  {
  }

  lemma XInjective(a: Poly, b: Poly)
    requires X(a) == X(b)
    ensures a == b
  {
    hide MulX, WordTop, WordShift, WordLow, Xor;
    LowBit(a.word);
    LowBit(b.word);
    XIs(a);
    XIs(b);
    if Top(a) { CancelSum(Shift(a), Shift(b), Q); }
    ShiftInjective(a.word, b.word);
  }

  lemma {:induction false} TimesInjective(a: Poly, b: Poly, n: nat)
    requires Times(a, n) == Times(b, n)
    ensures a == b
  {
    hide X;
    if n > 0 {
      XInjective(Times(a, n - 1), Times(b, n - 1));
      TimesInjective(a, b, n - 1);
    }
  }

  lemma CancelSum(a: Poly, b: Poly, c: Poly)
    requires Xor(a, c) == Xor(b, c) || Xor(c, a) == Xor(c, b)
    ensures a == b
  {
    hide Xor;
    XorOrder(a, c, c);
    XorOrder(b, c, c);
    XorOrder(c, a, c);
    XorOrder(c, b, c);
    XorOrder(c, c, a);
    XorOrder(a, ZERO, c);
    XorOrder(b, ZERO, c);
  }

  /** Two lists that differ in one window have different remainders. */
  lemma WindowDetected(pre: seq<bool>, a: seq<bool>, b: seq<bool>, post: seq<bool>)
    requires |a| == |b| <= 32 && a != b
    ensures Rem(pre + a + post) != Rem(pre + b + post)
  {
    hide Rem, Xor, X;
    if Rem(pre + a + post) == Rem(pre + b + post) {
      RemConcat(pre + a, post);
      RemConcat(pre + b, post);
      CancelSum(Times(Rem(pre + a), |post|), Times(Rem(pre + b), |post|), Rem(post));
      TimesInjective(Rem(pre + a), Rem(pre + b), |post|);
      RemConcat(pre, a);
      RemConcat(pre, b);
      CancelSum(Rem(a), Rem(b), Times(Rem(pre), |a|));
      ShortInjective(a, b);
    }
  }

  // ------ the bits of messages

  lemma {:induction false} BitsConcat(a: seq<Byte>, b: seq<Byte>)
    ensures Bits(a + b) == Bits(a) + Bits(b)
  {
    hide ByteBits;
    if b == [] {
      assert a + b == a;
    } else {
      var n := |b| - 1;
      BitsConcat(a, b[..n]);
      SplitLast(a, b);
      OneMore(a + b[..n], b[n]);
      Associate(Bits(a), Bits(b[..n]), ByteBits(b[n]));
    }
  }

  lemma SplitLast<T>(a: seq<T>, b: seq<T>)
    requires b != []
    ensures a + b == a + b[..|b| - 1] + [b[|b| - 1]]
  {
  }

  lemma Associate<T>(a: seq<T>, b: seq<T>, c: seq<T>)
    ensures (a + b) + c == a + (b + c)
  {
  }

  lemma EightBits(b: Byte)
    ensures |ByteBits(b)| == 8
  {
  }

  lemma {:induction false} BitsLength(a: seq<Byte>)
    ensures |Bits(a)| == 8 * |a|
  {
    hide ByteBits;
    if a != [] {
      BitsLength(a[..|a| - 1]);
      EightBits(a[|a| - 1]);
    }
  }

  lemma ByteInjective(a: Byte, b: Byte)
    requires ByteBits(a) == ByteBits(b)
    ensures a == b
  {
    assert forall i :: 0 <= i < 8 ==> ByteBits(a)[i] == ByteBits(b)[i];
    assert ByteBits(a)[0] == ByteBits(b)[0] && ByteBits(a)[1] == ByteBits(b)[1] && ByteBits(a)[2] == ByteBits(b)[2];
    assert ByteBits(a)[3] == ByteBits(b)[3] && ByteBits(a)[4] == ByteBits(b)[4] && ByteBits(a)[5] == ByteBits(b)[5];
  }

  lemma {:induction false} BitsInjective(a: seq<Byte>, b: seq<Byte>)
    requires |a| == |b| && Bits(a) == Bits(b)
    ensures a == b
  {
    hide ByteBits;
    if a != [] {
      var n := |a| - 1;
      BitsLength(a[..n]);
      BitsLength(b[..n]);
      EightBits(a[n]);
      EightBits(b[n]);
      assert Bits(a)[..8 * n] == Bits(a[..n]) && Bits(b)[..8 * n] == Bits(b[..n]);
      assert Bits(a)[8 * n..] == ByteBits(a[n]) && Bits(b)[8 * n..] == ByteBits(b[n]);
      BitsInjective(a[..n], b[..n]);
      ByteInjective(a[n], b[n]);
      SplitLast([], a);
      SplitLast([], b);
    }
  }

  lemma ComplementBits(b: Byte)
    ensures forall i :: 0 <= i < 8 ==> ByteBits(Not(b))[i] == !ByteBits(b)[i]
  {
  }

  /** One list is the other with the first 32 bits turned over. */
  ghost predicate Turned(a: seq<bool>, b: seq<bool>) {
    |a| == |b| && forall k :: 0 <= k < |a| ==> b[k] == if k < 32 then !a[k] else a[k]
  }

  lemma FrontBits(p: seq<Byte>)
    requires |p| >= 4
    ensures Turned(Bits(p), Bits(Front(p)))
  {
    hide FourBytes, Bits, Front, Not;
    FrontParts(p);
    ComplementFour(p[0], p[1], p[2], p[3]);
    TurnedBefore(FourBytes(p[0], p[1], p[2], p[3]), FourBytes(Not(p[0]), Not(p[1]), Not(p[2]), Not(p[3])),
      Bits(p[4..]));
  }

  lemma TurnedBefore(f: seq<bool>, g: seq<bool>, t: seq<bool>)
    requires |f| == |g| == 32 && forall k :: 0 <= k < 32 ==> g[k] == !f[k]
    ensures Turned(f + t, g + t)
  {
  }

  lemma FrontParts(p: seq<Byte>)
    requires |p| >= 4
    ensures Bits(p) == FourBytes(p[0], p[1], p[2], p[3]) + Bits(p[4..])
    ensures Bits(Front(p)) == FourBytes(Not(p[0]), Not(p[1]), Not(p[2]), Not(p[3])) + Bits(p[4..])
  {
    hide FourBytes, Bits, Front, Not;
    var a, b, c, d := p[0], p[1], p[2], p[3];
    FirstFour(p);
    FourMore([], a, b, c, d);
    FourMore([], Not(a), Not(b), Not(c), Not(d));
    BitsConcat([] + [a, b, c, d], p[4..]);
    BitsConcat([] + [Not(a), Not(b), Not(c), Not(d)], p[4..]);
    EmptyBits();
    NothingBefore(FourBytes(a, b, c, d));
    NothingBefore(FourBytes(Not(a), Not(b), Not(c), Not(d)));
  }

  lemma NothingBefore<T>(s: seq<T>)
    ensures [] + s == s
  {
  }

  lemma FirstFour(p: seq<Byte>)
    requires |p| >= 4
    ensures p == [] + [p[0], p[1], p[2], p[3]] + p[4..]
    ensures Front(p) == [] + [Not(p[0]), Not(p[1]), Not(p[2]), Not(p[3])] + p[4..]
  {
    assert p[..4] == [p[0], p[1], p[2], p[3]];
  }

  lemma EmptyBits()
    ensures Bits([]) == []
  {
  }

  lemma ComplementFour(a: Byte, b: Byte, c: Byte, d: Byte)
    ensures |FourBytes(a, b, c, d)| == |FourBytes(Not(a), Not(b), Not(c), Not(d))| == 32
    ensures forall k :: 0 <= k < 32 ==> FourBytes(Not(a), Not(b), Not(c), Not(d))[k] == !FourBytes(a, b, c, d)[k]
  {
    hide ByteBits, Not;
    EightBits(a);
    EightBits(b);
    EightBits(c);
    EightBits(d);
    EightBits(Not(a));
    EightBits(Not(b));
    EightBits(Not(c));
    EightBits(Not(d));
    ComplementBits(a);
    ComplementBits(b);
    ComplementBits(c);
    ComplementBits(d);
  }

  /** Outside the window the bits are the same. */
  ghost predicate AgreeOutside(a: seq<bool>, b: seq<bool>, p: nat) {
    |a| == |b| && forall k :: 0 <= k < |a| && !(p <= k < p + 32) ==> a[k] == b[k]
  }

  lemma ListsDiffer(a: seq<bool>, b: seq<bool>, p: nat)
    requires AgreeOutside(a, b, p) && a != b
    ensures Rem(a) != Rem(b)
  {
    hide Rem;
    var q := if p <= |a| then p else |a|;
    var e := if p + 32 <= |a| then p + 32 else |a|;
    assert a[..q] == b[..q] && a[e..] == b[e..];
    assert a == a[..q] + a[q..e] + a[e..] && b == b[..q] + b[q..e] + b[e..];
    WindowDetected(a[..q], a[q..e], b[q..e], a[e..]);
  }

  lemma AgreeTurned(a: seq<bool>, b: seq<bool>, a': seq<bool>, b': seq<bool>, t: seq<bool>, p: nat)
    requires AgreeOutside(a, b, p) && Turned(a + t, a') && Turned(b + t, b')
    ensures AgreeOutside(a', b', p) && (a' == b' ==> a == b)
  {
    if a' == b' {
      forall k | 0 <= k < |a|
        ensures a[k] == b[k]
      {
        assert (a + t)[k] == a[k] && (b + t)[k] == b[k];
      }
    }
  }

  /** The CRC detects every such difference. */
  lemma NoCollision(a: seq<Byte>, b: seq<Byte>, p: nat)
    requires |a| == |b| > 0 && a != b && AgreeOutside(Bits(a), Bits(b), p)
    ensures Crc(a) != Crc(b)
  {
    hide Rem, Bits, Front, Padded, Swap, AgreeOutside, Turned, NextMultiple;
    PaddedIs(a);
    PaddedIs(b);
    var pa, pb := Padded(a), Padded(b);
    SamePadding(a, b);
    BitsConcat(a, pa[|a|..]);
    BitsConcat(b, pa[|a|..]);
    FrontBits(pa);
    FrontBits(pb);
    AgreeTurned(Bits(a), Bits(b), Bits(Front(pa)), Bits(Front(pb)), Bits(pa[|a|..]), p);
    if Bits(Front(pa)) == Bits(Front(pb)) {
      BitsInjective(a, b);
    }
    ListsDiffer(Bits(Front(pa)), Bits(Front(pb)), p);
    DifferentWords(Rem(Bits(Front(pa))), Rem(Bits(Front(pb))));
  }

  lemma SamePadding(a: seq<Byte>, b: seq<Byte>)
    requires |a| == |b|
    ensures |Padded(a)| == |Padded(b)| && |a| <= |Padded(a)| && Padded(a)[|a|..] == Padded(b)[|a|..]
    ensures Padded(a) == a + Padded(a)[|a|..] && Padded(b) == b + Padded(a)[|a|..]
  {
  }

  lemma DifferentWords(a: Poly, b: Poly)
    requires a != b
    ensures !Swap(a.word) != !Swap(b.word)
  {
    hide Swap;
    SwapTwice(a.word);
    SwapTwice(b.word);
    SwapTwice(Swap(a.word));
    SwapTwice(Swap(b.word));
  }
}
