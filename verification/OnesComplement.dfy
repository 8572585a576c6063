/** The Internet checksum of RFC 1071, and the way csum computes it: words in the machine's
    order are added up in a wide register that is folded twice at the end. */
module OnesComplement {
  import opened Arith

  type Byte = x: int | 0 <= x < 256

  type Word = x: int | 0 <= x < 65536

  /** One's complement addition: the carry comes around. */
  function Plus(a: Word, b: Word): Word {
    if a + b < 65536 then a + b else a + b - 65535
  }

  /** The number that bytes in network order stand for. */
  function Value(s: seq<Byte>): nat {
    if |s| == 0 then 0 else 256 * Value(s[..|s| - 1]) + s[|s| - 1]
  }

  lemma ValueOfTwo(high: Byte, low: Byte)
    ensures Value([high, low]) == 256 * high + low
  {
    assert [high, low][..1] == [high] && [high][..0] == [];
    assert Value([high]) == high;
  }

  function Pair(high: Byte, low: Byte): Word {
    ValueOfTwo(high, low);
    Value([high, low])
  }

  lemma PairIs(high: Byte, low: Byte)
    ensures Pair(high, low) == 256 * high + low
  {
    ValueOfTwo(high, low);
  }

  /** The one's complement sum of the words in network order, the last one padded with zero. */
  function SumOf(s: seq<Byte>): Word {
    if |s| == 0 then 0
    else if |s| == 1 then Pair(s[0], 0)
    else Plus(Pair(s[0], s[1]), SumOf(s[2..]))
  }

  /** The checksum of section 1 of RFC 1071. */
  function Check(s: seq<Byte>): Word {
    65535 - SumOf(s)
  }

  lemma {:induction false} PadWithZero(s: seq<Byte>)
    requires |s| % 2 == 1
    ensures SumOf(s + [0]) == SumOf(s)
  {
    if |s| > 1 {
      PadWithZero(s[2..]);
      assert (s + [0])[2..] == s[2..] + [0];
    }
  }

  lemma PaddedCheck(s: seq<Byte>)
    requires |s| % 2 == 1
    ensures Check(s + [0]) == Check(s)
  {
    PadWithZero(s);
  }

  // ------ what the code computes

  function Swap(w: Word): Word {
    Pair(w % 256, w / 256)
  }

  /** The plain sum of the words in the machine's order, lowest byte first. */
  function RawSum(s: seq<Byte>): nat
    requires |s| % 2 == 0
  {
    if |s| == 0 then 0 else Pair(s[1], s[0]) + RawSum(s[2..])
  }

  lemma {:induction false} RawSumBound(s: seq<Byte>)
    requires |s| % 2 == 0
    ensures RawSum(s) <= 65535 * (|s| / 2)
  {
    if |s| > 0 { RawSumBound(s[2..]); }
  }

  function Fold(sum: nat): nat {
    sum / 65536 + sum % 65536
  }

  /** Both folds, cut to sixteen bits. */
  function TwoFolds(sum: nat): Word {
    (Fold(sum) + Fold(sum) / 65536) % 65536
  }

  /** The complement of the folded sum, for any number of words. */
  function Folds(s: seq<Byte>): Word
    requires |s| % 2 == 0
  {
    65535 - TwoFolds(RawSum(s))
  }

  /** The word that stands for a number modulo 65535; 0 for 0 only. */
  function Canon(n: nat): Word {
    if n == 0 then 0 else 1 + (n - 1) % 65535
  }

  lemma CanonShift(n: nat, k: nat)
    requires n > 0
    ensures Canon(n + 65535 * k) == Canon(n)
  {
    SameResidue(n + 65535 * k - 1, n - 1, k, 65535);
  }

  lemma CanonSmall(n: nat)
    requires n < 65536
    ensures Canon(n) == n
  {
  }

  lemma PlusCanon(a: Word, n: nat)
    ensures Plus(a, Canon(n)) == Canon(a + n)
  {
    if n > 0 {
      var c, k := Canon(n), (n - 1) / 65535;
      assert n == c + 65535 * k;
      CanonShift(a + c, k);
      if a + c < 65536 {
        CanonSmall(a + c);
      } else {
        CanonShift(a + c - 65535, 1);
        CanonSmall(a + c - 65535);
      }
    }
  }

  lemma FoldCanon(sum: nat)
    ensures Canon(Fold(sum)) == Canon(sum)
  {
    if sum > 0 {
      assert sum == Fold(sum) + 65535 * (sum / 65536);
      CanonShift(Fold(sum), sum / 65536);
    }
  }

  /** For every buffer an int can count, two folds are enough exactly when the second one
      leaves no carry. */
  lemma TwoFoldsEnoughIff(sum: nat)
    requires sum < 0x1_0000_0000_0000
    ensures TwoFolds(sum) == Canon(sum) <==> Fold(sum) % 65536 + Fold(sum) / 65536 < 65536
  {
    var s := Fold(sum);
    var l, h := s % 65536, s / 65536;
    FoldCanon(sum);
    FoldCanon(s);
    assert Fold(s) == l + h;
    assert s + h == 65536 * h + (l + h);
    SameResidue(s + h, l + h, h, 65536);
    FoldBound(sum);
    if l + h < 65536 {
      CanonSmall(l + h);
    } else {
      CanonShift(l + h - 65535, 1);
      CanonSmall(l + h - 65535);
      assert (l + h) % 65536 == l + h - 65536;
    }
  }

  lemma FoldBound(sum: nat)
    requires sum < 0x1_0000_0000_0000
    ensures Fold(sum) / 65536 <= 65536
  {
  }

  lemma TwoFoldsEnough(sum: nat)
    requires sum < 0x1_0000_0000
    ensures TwoFolds(sum) == Canon(sum)
  {
    assert sum / 65536 < 65536 && Fold(sum) < 131071;
    TwoFoldsEnoughIff(sum);
  }

  /** One's complement addition does not care about the order of the bytes. */
  lemma SwapPlus(a: Word, b: Word)
    ensures Swap(Plus(a, b)) == Plus(Swap(a), Swap(b))
  {
    hide Swap;
    SwapNumber(a);
    SwapNumber(b);
    SwapParts(a % 256, a / 256, b % 256, b / 256);
  }

  lemma SwapParts(a0: Byte, a1: Byte, b0: Byte, b1: Byte)
    ensures Swap(Plus(a0 + 256 * a1, b0 + 256 * b1)) == Plus(256 * a0 + a1, 256 * b0 + b1)
  {
    var low, high := a0 + b0, a1 + b1;
    if low + 256 * high < 65536 {
      if low < 256 {
        SwapIs(low, high);
      } else {
        SwapIs(low - 256, high + 1);
      }
    } else if low + 1 < 256 {
      SwapIs(low + 1, high - 256);
    } else {
      SwapIs(low + 1 - 256, high + 1 - 256);
    }
  }

  lemma SwapNumber(w: Word)
    ensures Swap(w) == 256 * (w % 256) + w / 256
  {
    PairIs(w % 256, w / 256);
  }

  lemma SwapIs(low: Byte, high: Byte)
    ensures Swap(low + 256 * high) == 256 * low + high
    ensures Swap(Pair(high, low)) == Pair(low, high)
  {
    PairIs(high, low);
    PairIs(low, high);
    var w: Word := low + 256 * high;
    assert w % 256 == low && w / 256 == high;
  }

  lemma SwapZero()
    ensures Swap(0) == 0
  {
    SwapIs(0, 0);
  }

  lemma {:induction false} SwappedSum(s: seq<Byte>)
    requires |s| % 2 == 0
    ensures SumOf(s) == Swap(Canon(RawSum(s)))
  {
    hide Canon, Plus, Swap, Pair;
    if |s| == 0 {
      CanonSmall(0);
      SwapZero();
    } else {
      SwappedSum(s[2..]);
      var w := Pair(s[1], s[0]);
      SwapIs(s[0], s[1]);
      SwapPlus(w, Canon(RawSum(s[2..])));
      PlusCanon(w, RawSum(s[2..]));
    }
  }

  /** Up to 65536 words csum computes the checksum of RFC 1071, in the machine's order. */
  lemma FoldedSum(s: seq<Byte>)
    requires |s| <= 0x2_0000 && |s| % 2 == 0
    ensures Folds(s) == Swap(Check(s))
  {
    hide TwoFolds, Canon, Swap;
    RawSumBound(s);
    TwoFoldsEnough(RawSum(s));
    SwappedSum(s);
    SwapComplement(Canon(RawSum(s)));
  }

  /** csum: a wide register for the sum, folded at the end. */
  method Csum(p: array<Byte>, o: nat, nwords: nat) returns (r: Word)
    requires o + 2 * nwords <= p.Length
    ensures r == Folds(p[o..o + 2 * nwords])
  {
    hide TwoFolds, Pair;
    ghost var s := p[o..o + 2 * nwords];
    var sum, at, left := 0, o, nwords;
    while left > 0
      invariant 0 <= left <= nwords && at == o + 2 * (nwords - left) && sum >= 0
      invariant sum + RawSum(p[at..o + 2 * nwords]) == RawSum(s)
    {
      assert p[at..o + 2 * nwords][2..] == p[at + 2..o + 2 * nwords];
      sum := sum + Pair(p[at + 1], p[at]);
      at := at + 2;
      left := left - 1;
    }
    r := Folded(sum);
  }

  method Folded(wide: nat) returns (r: Word)
    ensures r == 65535 - TwoFolds(wide)
  {
    var sum := wide / 65536 + wide % 65536;
    sum := sum + sum / 65536;
    r := 65535 - sum % 65536;
  }

  lemma SwapComplement(w: Word)
    ensures Swap(65535 - Swap(w)) == 65535 - w
  {
    SwapIs(w % 256, w / 256);
    SwapIs(255 - w / 256, 255 - w % 256);
  }

  // ------ checking

  function At16(s: seq<Byte>, o: nat): Word
    requires o + 2 <= |s|
  {
    Pair(s[o], s[o + 1])
  }

  /** The bytes with a word set to zero. */
  function Cleared(s: seq<Byte>, o: nat): (r: seq<Byte>)
    requires o + 2 <= |s|
    ensures |r| == |s|
  {
    s[o := 0][o + 1 := 0]
  }

  lemma PlusOrder(a: Word, b: Word, c: Word)
    ensures Plus(a, Plus(b, c)) == Plus(b, Plus(a, c))
  {
  }

  lemma {:induction false} SumWithout(s: seq<Byte>, o: nat)
    requires o + 2 <= |s| && o % 2 == 0
    ensures SumOf(s) == Plus(At16(s, o), SumOf(Cleared(s, o)))
  {
    if o == 0 {
      assert Cleared(s, o)[2..] == s[2..];
    } else {
      SumWithout(s[2..], o - 2);
      assert Cleared(s, o)[2..] == Cleared(s[2..], o - 2);
      PlusOrder(Pair(s[0], s[1]), At16(s, o), SumOf(Cleared(s[2..], o - 2)));
    }
  }

  /** Computing the checksum anew and comparing accepts what RFC 1071 accepts, a sum of all
      ones, unless the field holds all ones and so does the sum of the rest. */
  lemma EqualIffValid(s: seq<Byte>, o: nat)
    requires o + 2 <= |s| && o % 2 == 0
    ensures At16(s, o) == Check(Cleared(s, o)) <==>
      SumOf(s) == 65535 && !(At16(s, o) == 65535 && SumOf(Cleared(s, o)) == 65535)
  {
    SumWithout(s, o);
  }
}
