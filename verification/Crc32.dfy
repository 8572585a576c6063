/** The CRC: a word-at-a-time table loop computes a polynomial remainder. */
module Crc32 {
  import opened Crc32Table

  type Byte = bv8

  // ------ words; only these few facts look at bits

  function WordXor(a: Word, b: Word): Word { a ^ b }

  function WordShift(a: Word): Word { a << 1 }

  predicate WordTop(a: Word) { a & 0x80000000 != 0 }

  lemma WordOrder(a: Word, b: Word, c: Word)
    ensures WordXor(WordXor(a, b), c) == WordXor(a, WordXor(b, c)) && WordXor(a, b) == WordXor(b, a)
    ensures WordXor(a, 0) == a && WordXor(a, a) == 0
  {
  }

  lemma WordShiftLinear(a: Word, b: Word)
    ensures WordShift(WordXor(a, b)) == WordXor(WordShift(a), WordShift(b))
  {
  }

  lemma WordTopLinear(a: Word, b: Word)
    ensures WordTop(WordXor(a, b)) <==> WordTop(a) != WordTop(b)
  {
  }

  /** A polynomial over the two-element field of degree below 32, its highest coefficient in
      the highest bit. */
  datatype Poly = Poly(word: Word)

  const ZERO := Poly(0)
  const Q := Poly(QUOTIENT)

  function Xor(a: Poly, b: Poly): Poly { Poly(WordXor(a.word, b.word)) }

  function Shift(a: Poly): Poly { Poly(WordShift(a.word)) }

  predicate Top(a: Poly) { WordTop(a.word) }

  function Bit(b: bool): Poly { Poly(if b then 1 else 0) }

  /** Times x, reduced. */
  function X(a: Poly): Poly { Poly(MulX(a.word)) }

  lemma XIs(a: Poly)
    ensures X(a) == if Top(a) then Xor(Shift(a), Q) else Shift(a)
  {
  }

  lemma XorOrder(a: Poly, b: Poly, c: Poly)
    ensures Xor(Xor(a, b), c) == Xor(a, Xor(b, c)) && Xor(a, b) == Xor(b, a) && Xor(a, ZERO) == a && Xor(a, a) == ZERO
  {
    hide WordXor;
    WordOrder(a.word, b.word, c.word);
  }

  lemma XorLinear(a: Poly, b: Poly)
    ensures Shift(Xor(a, b)) == Xor(Shift(a), Shift(b))
    ensures Top(Xor(a, b)) <==> Top(a) != Top(b)
  {
    hide WordXor, WordShift, WordTop;
    WordShiftLinear(a.word, b.word);
    WordTopLinear(a.word, b.word);
  }

  /** Sums may be taken before or after multiplying by x. */
  lemma XLinear(a: Poly, b: Poly)
    ensures X(Xor(a, b)) == Xor(X(a), X(b))
  {
    hide X, Xor, Shift, Top;
    XIs(a);
    XIs(b);
    XIs(Xor(a, b));
    XorLinear(a, b);
    SumsWith(Shift(a), Shift(b), Q);
  }

  lemma SumsWith(a: Poly, b: Poly, q: Poly)
    ensures Xor(Xor(a, b), q) == Xor(Xor(a, q), b) == Xor(a, Xor(b, q)) && Xor(Xor(a, q), Xor(b, q)) == Xor(a, b)
  {
    hide Xor;
    XorOrder(a, b, q);
    XorOrder(b, q, q);
    XorOrder(a, q, b);
    XorOrder(a, q, Xor(b, q));
    XorOrder(q, b, q);
    XorOrder(q, q, b);
    XorOrder(b, ZERO, q);
    XorOrder(ZERO, b, q);
  }

  // ------ the remainder, bit by bit

  /** The polynomial with these coefficients, the highest first, modulo x^32 + QUOTIENT: its
      value at x by Horner's rule. */
  function Rem(bits: seq<bool>): Poly {
    if bits == [] then ZERO else Xor(X(Rem(bits[..|bits| - 1])), Bit(bits[|bits| - 1]))
  }

  lemma RemAppend(bits: seq<bool>, b: bool)
    ensures Rem(bits + [b]) == Xor(X(Rem(bits)), Bit(b))
  {
    hide X, Xor, Bit;
    assert (bits + [b])[..|bits|] == bits;
  }

  /** A byte's bits, the highest first. */
  function ByteBits(b: Byte): seq<bool> {
    [b & 0x80 != 0, b & 0x40 != 0, b & 0x20 != 0, b & 0x10 != 0, b & 8 != 0, b & 4 != 0, b & 2 != 0, b & 1 != 0]
  }

  function Bits(bytes: seq<Byte>): seq<bool> {
    if bytes == [] then [] else Bits(bytes[..|bytes| - 1]) + ByteBits(bytes[|bytes| - 1])
  }

  function Times(a: Poly, n: nat): Poly {
    if n == 0 then a else X(Times(a, n - 1))
  }

  /** Horner's rule from any start is the start's multiple plus the rest. */
  lemma {:induction false} RemConcat(a: seq<bool>, b: seq<bool>)
    ensures Rem(a + b) == Xor(Times(Rem(a), |b|), Rem(b))
  {
    hide X, Xor, Bit;
    if b == [] {
      assert a + b == a;
      XorOrder(Rem(a), ZERO, ZERO);
    } else {
      var init, last := b[..|b| - 1], b[|b| - 1];
      RemConcat(a, init);
      assert a + b == a + init + [last];
      RemAppend(a + init, last);
      XLinear(Times(Rem(a), |init|), Rem(init));
      XorOrder(X(Times(Rem(a), |init|)), X(Rem(init)), Bit(last));
    }
  }

  // ------ by bytes and words

  function ByteOf(b: Byte): Word { b as Word }

  lemma HighBits(b: Byte)
    ensures var w := ByteOf(b);
      && Xor(X(ZERO), Bit(b & 0x80 != 0)) == Poly(w >> 7) && Xor(X(Poly(w >> 7)), Bit(b & 0x40 != 0)) == Poly(w >> 6)
      && Xor(X(Poly(w >> 6)), Bit(b & 0x20 != 0)) == Poly(w >> 5)
      && Xor(X(Poly(w >> 5)), Bit(b & 0x10 != 0)) == Poly(w >> 4)
  {
  }

  lemma LowBits(b: Byte)
    ensures var w := ByteOf(b);
      && Xor(X(Poly(w >> 4)), Bit(b & 8 != 0)) == Poly(w >> 3) && Xor(X(Poly(w >> 3)), Bit(b & 4 != 0)) == Poly(w >> 2)
      && Xor(X(Poly(w >> 2)), Bit(b & 2 != 0)) == Poly(w >> 1) && Xor(X(Poly(w >> 1)), Bit(b & 1 != 0)) == Poly(w)
  {
  }

  lemma ByteRem(b: Byte)
    ensures |ByteBits(b)| == 8 && Rem(ByteBits(b)) == Poly(ByteOf(b))
  {
    hide X, Xor, Bit, ByteOf;
    HighRem(b);
    LowBits(b);
    var s := ByteBits(b);
    RemAppend([s[0], s[1], s[2], s[3]], s[4]);
    RemAppend([s[0], s[1], s[2], s[3], s[4]], s[5]);
    RemAppend([s[0], s[1], s[2], s[3], s[4], s[5]], s[6]);
    RemAppend([s[0], s[1], s[2], s[3], s[4], s[5], s[6]], s[7]);
    Spelled(s);
  }

  /** The four higher bits. */
  lemma HighRem(b: Byte)
    ensures var s := ByteBits(b); |s| == 8 && Rem([s[0], s[1], s[2], s[3]]) == Poly(ByteOf(b) >> 4)
  {
    hide X, Xor, Bit, ByteOf;
    HighBits(b);
    var s := ByteBits(b);
    RemAppend([], s[0]);
    RemAppend([s[0]], s[1]);
    RemAppend([s[0], s[1]], s[2]);
    RemAppend([s[0], s[1], s[2]], s[3]);
    Spelled(s);
  }

  lemma Spelled(s: seq<bool>)
    requires |s| == 8
    ensures [] + [s[0]] == [s[0]] && [s[0]] + [s[1]] == [s[0], s[1]] && [s[0], s[1]] + [s[2]] == [s[0], s[1], s[2]]
    ensures [s[0], s[1], s[2]] + [s[3]] == [s[0], s[1], s[2], s[3]]
    ensures [s[0], s[1], s[2], s[3]] + [s[4]] == [s[0], s[1], s[2], s[3], s[4]]
    ensures [s[0], s[1], s[2], s[3], s[4]] + [s[5]] == [s[0], s[1], s[2], s[3], s[4], s[5]]
    ensures [s[0], s[1], s[2], s[3], s[4], s[5]] + [s[6]] == [s[0], s[1], s[2], s[3], s[4], s[5], s[6]]
    ensures [s[0], s[1], s[2], s[3], s[4], s[5], s[6]] + [s[7]] == s
  {
  }

  lemma {:induction false} TimesTwice(a: Poly, m: nat, n: nat)
    ensures Times(Times(a, m), n) == Times(a, m + n)
  {
    hide X;
    if n > 0 {
      TimesTwice(a, m, n - 1);
    }
  }

  lemma {:induction false} TimesLinear(a: Poly, b: Poly, n: nat)
    ensures Times(Xor(a, b), n) == Xor(Times(a, n), Times(b, n))
  {
    hide X, Xor;
    if n > 0 {
      TimesLinear(a, b, n - 1);
      XLinear(Times(a, n - 1), Times(b, n - 1));
    }
  }

  lemma EightTimes(a: Poly)
    ensures Times(a, 8) == Poly(MulX8(a.word))
  {
    hide MulX;
    assert Times(a, 1) == X(Times(a, 0)) && Times(a, 2) == X(Times(a, 1)) && Times(a, 3) == X(Times(a, 2));
    assert Times(a, 4) == X(Times(a, 3)) && Times(a, 5) == X(Times(a, 4)) && Times(a, 6) == X(Times(a, 5));
    assert Times(a, 7) == X(Times(a, 6)) && Times(a, 8) == X(Times(a, 7));
  }

  /** Nothing is reduced when the top byte is 0. */
  lemma WithoutTop(w: Word)
    requires w < 0x1000000
    ensures MulX8(w) == w << 8
  {
  }

  /** All bits turned over. */
  function Not(b: Byte): Byte { !b }

  function Join(w: Word, b: Byte): Word { (w << 8) | (b as Word) }

  lemma JoinIs(w: Word, b: Byte)
    ensures WordXor(w << 8, ByteOf(b)) == Join(w, b)
    ensures ByteOf(b) < 0x100 && (w < 0x100 ==> Join(w, b) < 0x10000) && (w < 0x10000 ==> Join(w, b) < 0x1000000)
  {
  }

  /** Four bytes as a word, the first one highest or lowest. */
  function BigEndian(a: Byte, b: Byte, c: Byte, d: Byte): Word {
    Join(Join(Join(ByteOf(a), b), c), d)
  }

  function LittleEndian(a: Byte, b: Byte, c: Byte, d: Byte): Word {
    BigEndian(d, c, b, a)
  }

  lemma SwapBytes(a: Byte, b: Byte, c: Byte, d: Byte)
    ensures Swap(BigEndian(a, b, c, d)) == LittleEndian(a, b, c, d)
    ensures !LittleEndian(a, b, c, d) == LittleEndian(Not(a), Not(b), Not(c), Not(d))
  {
  }

  lemma SwapLinear(a: Word, b: Word)
    ensures Swap(WordXor(a, b)) == WordXor(Swap(a), Swap(b))
  {
  }

  lemma SwapTwice(a: Word)
    ensures Swap(Swap(a)) == a && !(!a) == a
  {
  }

  /** One more byte. */
  lemma JoinedRem(bits: seq<bool>, w: Word, b: Byte)
    requires Rem(bits) == Poly(w) && w < 0x1000000
    ensures Rem(bits + ByteBits(b)) == Poly(Join(w, b))
  {
    hide Rem, MulX8, ByteBits, WordXor, Join, ByteOf;
    RemConcat(bits, ByteBits(b));
    ByteRem(b);
    EightTimes(Poly(w));
    WithoutTop(w);
    JoinIs(w, b);
  }

  function FourBytes(a: Byte, b: Byte, c: Byte, d: Byte): seq<bool> {
    ByteBits(a) + ByteBits(b) + ByteBits(c) + ByteBits(d)
  }

  lemma WordRem(a: Byte, b: Byte, c: Byte, d: Byte)
    ensures |FourBytes(a, b, c, d)| == 32 && Rem(FourBytes(a, b, c, d)) == Poly(BigEndian(a, b, c, d))
  {
    hide Rem, ByteBits, Join, ByteOf;
    ByteRem(a);
    ByteRem(b);
    ByteRem(c);
    ByteRem(d);
    JoinIs(0, a);
    JoinIs(ByteOf(a), b);
    JoinIs(Join(ByteOf(a), b), c);
    JoinedRem(ByteBits(a), ByteOf(a), b);
    JoinedRem(ByteBits(a) + ByteBits(b), Join(ByteOf(a), b), c);
    JoinedRem(ByteBits(a) + ByteBits(b) + ByteBits(c), Join(Join(ByteOf(a), b), c), d);
  }

  /** One more word. */
  lemma NextWord(s: seq<Byte>, a: Byte, b: Byte, c: Byte, d: Byte)
    ensures Rem(Bits(s + [a, b, c, d])) == Xor(Times(Rem(Bits(s)), 32), Poly(BigEndian(a, b, c, d)))
  {
    hide Rem, ByteBits, Xor, BigEndian;
    FourMore(s, a, b, c, d);
    WordRem(a, b, c, d);
    RemConcat(Bits(s), FourBytes(a, b, c, d));
  }

  lemma FourMore(s: seq<Byte>, a: Byte, b: Byte, c: Byte, d: Byte)
    ensures Bits(s + [a, b, c, d]) == Bits(s) + FourBytes(a, b, c, d)
  {
    hide ByteBits, Bits;
    OneMore(s, a);
    OneMore(s + [a], b);
    OneMore(s + [a, b], c);
    OneMore(s + [a, b, c], d);
    Appended(s, a, b, c, d);
    Concatenated(Bits(s), ByteBits(a), ByteBits(b), ByteBits(c), ByteBits(d));
  }

  lemma Concatenated<T>(s: seq<T>, a: seq<T>, b: seq<T>, c: seq<T>, d: seq<T>)
    ensures s + a + b + c + d == s + (a + b + c + d)
  {
  }

  lemma Appended<T>(s: seq<T>, a: T, b: T, c: T, d: T)
    ensures s + [a] + [b] == s + [a, b] && s + [a, b] + [c] == s + [a, b, c] && s + [a, b, c] + [d] == s + [a, b, c, d]
  {
  }

  lemma OneMore(s: seq<Byte>, b: Byte)
    ensures Bits(s + [b]) == Bits(s) + ByteBits(b)
  {
    hide ByteBits;
    assert (s + [b])[..|s|] == s;
  }

  // ------ the table loop

  // The halves of the lowest byte, and what is above it.
  function Hi(result: Word): Word { (result & 0xff) >> 4 }

  function Lo(result: Word): Word { result & 0xf }

  function Above(result: Word): Word { result >> 8 }

  /** crctab[result & 0xff] ^ result >> 8 */
  method Round(result: Word) returns (r: Word)
    ensures Poly(Swap(r)) == Times(Poly(Swap(result)), 8)
  {
    hide MulX8, Entry, Swap, CRCTAB, WordXor, Hi, Lo, Above, Times;
    Halves(result);
    TableEntry(Hi(result), Lo(result));
    r := WordXor(CRCTAB[Hi(result) as int][Lo(result) as int], Above(result));
    RoundIs(result);
    SwapTwice(MulX8(Swap(result)));
    EightTimes(Poly(Swap(result)));
  }

  lemma Halves(result: Word)
    ensures Hi(result) < 16 && Lo(result) < 16
  {
  }

  function HighByte(r: Word): Word { r & 0xff000000 }

  function LowBytes(r: Word): Word { r & 0xffffff }

  lemma SwapHalves(result: Word)
    ensures (Hi(result) << 28) ^ (Lo(result) << 24) == HighByte(Swap(result))
  {
  }

  lemma EntryOf(result: Word)
    ensures Entry(Hi(result), Lo(result)) == Swap(MulX8(HighByte(Swap(result))))
  {
    hide MulX8, Swap, Hi, Lo, HighByte;
    SwapHalves(result);
  }

  function Up8(w: Word): Word { w << 8 }

  lemma LowSmall(r: Word)
    ensures LowBytes(r) < 0x1000000
  {
  }

  lemma LowSwapped(result: Word)
    ensures Swap(Up8(LowBytes(Swap(result)))) == Above(result)
  {
  }

  lemma Parted(r: Word)
    ensures WordXor(HighByte(r), LowBytes(r)) == r
  {
  }

  lemma RoundIs(result: Word)
    ensures WordXor(Entry(Hi(result), Lo(result)), Above(result)) == Swap(MulX8(Swap(result)))
  {
    hide MulX8, Swap, WordXor, HighByte, LowBytes, Hi, Lo, Above, Entry;
    var r := Swap(result);
    EntryOf(result);
    Parted(r);
    // Below the highest byte, times x^8 is a shift; swapped, it is what is above.
    LowSmall(r);
    WithoutTop(LowBytes(r));
    LowSwapped(result);
    Linear8(HighByte(r), LowBytes(r));
    SwapLinear(MulX8(HighByte(r)), Up8(LowBytes(r)));
  }

  lemma Linear8(a: Word, b: Word)
    ensures MulX8(WordXor(a, b)) == WordXor(MulX8(a), MulX8(b))
  {
    hide MulX8, WordXor;
    TimesLinear(Poly(a), Poly(b), 8);
    EightTimes(Poly(a));
    EightTimes(Poly(b));
    EightTimes(Poly(WordXor(a, b)));
  }

  // ------ the CRC of a message

  function NextMultiple(len: nat): (r: nat)
    ensures r % 4 == 0 && len <= r < len + 4
  {
    len + (4 - len % 4) % 4
  }

  /** Zero bytes up to a multiple of four. */
  function Padded(message: seq<Byte>): seq<Byte> {
    message + seq(NextMultiple(|message|) - |message|, _ => 0)
  }

  /** The first word complemented. */
  function Front(p: seq<Byte>): seq<Byte>
    requires |p| >= 4
  {
    [Not(p[0]), Not(p[1]), Not(p[2]), Not(p[3])] + p[4..]
  }

  /** The complement of the byte-swapped remainder of the padded message with its first word
      complemented. */
  function Crc(message: seq<Byte>): Word
    requires |message| > 0
  {
    !Swap(Rem(Bits(Front(Padded(message)))).word)
  }

  lemma PaddedIs(message: seq<Byte>)
    ensures |Padded(message)| == NextMultiple(|message|) && |Padded(message)| % 4 == 0
    ensures |message| <= |Padded(message)| && Padded(message)[..|message|] == message
    ensures |message| > 0 ==> |Padded(message)| >= 4
  {
  }

  lemma FrontIs(p: seq<Byte>)
    requires |p| >= 4
    ensures |Front(p)| == |p| && Front(p)[4..] == p[4..]
    ensures Front(p)[..4] == [] + [Not(p[0]), Not(p[1]), Not(p[2]), Not(p[3])]
  {
  }

  /** The word in memory at i, on a little-endian machine. */
  function WordAt(data: array<Byte>, i: nat): Word
    requires i + 4 <= data.Length
    reads data
  {
    LittleEndian(data[i], data[i + 1], data[i + 2], data[i + 3])
  }

  /** Pads the message in place with zero bytes. */
  method Pad(data: array<Byte>, off: nat, len: nat) returns (padded: nat)
    requires off + NextMultiple(len) <= data.Length
    modifies data
    ensures padded == NextMultiple(len) && data[off..off + padded] == Padded(old(data[off..off + len]))
    ensures data[..off + len] == old(data[..off + len]) && data[off + padded..] == old(data[off + padded..])
  {
    hide NextMultiple, Padded;
    ghost var was := data[..];
    padded := PadLoop(data, off, len);
    PaddedSlices(was, data[..], off, len, padded);
    assert data[off..off + padded] == data[..][off..off + padded] && was[off..off + len] == old(data[off..off + len]);
  }

  /** Zeros up to the next multiple of four, and nothing else. */
  method PadLoop(data: array<Byte>, off: nat, len: nat) returns (padded: nat)
    requires off + NextMultiple(len) <= data.Length
    modifies data
    ensures padded == NextMultiple(len)
    ensures forall i :: 0 <= i < data.Length && !(off + len <= i < off + padded) ==> data[i] == old(data[i])
    ensures forall i :: off + len <= i < off + padded ==> data[i] == 0
  {
    hide NextMultiple;
    padded := len;
    while padded % 4 != 0
      invariant len <= padded <= NextMultiple(len)
      invariant forall i :: 0 <= i < data.Length && !(off + len <= i < off + padded) ==> data[i] == old(data[i])
      invariant forall i :: off + len <= i < off + padded ==> data[i] == 0
      decreases NextMultiple(len) - padded
    {
      data[off + padded] := 0;
      padded := padded + 1;
    }
  }

  lemma PaddedSlices(s: seq<Byte>, t: seq<Byte>, off: nat, len: nat, padded: nat)
    requires |s| == |t| && padded == NextMultiple(len) && off + padded <= |s|
    requires forall i :: 0 <= i < |s| && !(off + len <= i < off + padded) ==> t[i] == s[i]
    requires forall i :: off + len <= i < off + padded ==> t[i] == 0
    ensures t[off..off + padded] == Padded(s[off..off + len])
    ensures t[..off + len] == s[..off + len] && t[off + padded..] == s[off + padded..]
  {
    hide NextMultiple;
    assert t[off..off + padded] == t[off..off + len] + t[off + len..off + padded];
    assert t[off..off + len] == s[off..off + len];
  }

  /** The CRC of len bytes at off: padded in place, then word by word through the table. */
  method WombatCrc32(data: array<Byte>, off: nat, len: nat) returns (crc: Word)
    requires len > 0 && off + NextMultiple(len) <= data.Length
    modifies data
    ensures crc == Crc(old(data[off..off + len]))
    ensures data[..off + len] == old(data[..off + len])
    ensures data[off + NextMultiple(len)..] == old(data[off + NextMultiple(len)..])
  {
    hide Padded, NextMultiple, Rem, Bits, Front, Swap;
    ghost var message := data[off..off + len];
    PaddedIs(message);
    var padded := Pad(data, off, len);
    crc := WordLoop(data, off, padded);
  }

  /** The loop over the words of the padded message. */
  method WordLoop(data: array<Byte>, off: nat, padded: nat) returns (crc: Word)
    requires padded >= 4 && padded % 4 == 0 && off + padded <= data.Length
    ensures crc == !Swap(Rem(Bits(Front(data[off..off + padded]))).word)
  {
    hide Rem, Bits, Front, LittleEndian, BigEndian, Swap, WordXor, Times, WordAt;
    ghost var m := data[off..off + padded];
    FrontIs(m);
    FirstWord(m, data, off);
    var result := !WordAt(data, off);
    var p := 4;
    while p < padded
      invariant 4 <= p <= padded && p % 4 == 0
      invariant Poly(Swap(result)) == Rem(Bits(Front(m)[..p]))
    {
      ghost var r0 := Poly(Swap(result));
      result := Round(result);
      result := Round(result);
      result := Round(result);
      result := Round(result);
      FourRounds(r0);
      NextInFront(m, p, data, off, result);
      result := WordXor(result, WordAt(data, off + p));
      p := p + 4;
    }
    assert Front(m)[..p] == Front(m);
    SwapTwice(result);
    crc := !result;
  }

  lemma FourRounds(r: Poly)
    ensures Times(Times(Times(Times(r, 8), 8), 8), 8) == Times(r, 32)
  {
    hide X;
    TimesTwice(r, 8, 8);
    TimesTwice(r, 16, 8);
    TimesTwice(r, 24, 8);
  }

  lemma FirstWord(m: seq<Byte>, data: array<Byte>, off: nat)
    requires |m| >= 4 && off + |m| <= data.Length && m == data[off..off + |m|]
    ensures |Front(m)| == |m| && Poly(Swap(!WordAt(data, off))) == Rem(Bits(Front(m)[..4]))
  {
    hide Rem, Bits, Front, LittleEndian, BigEndian, Swap, Xor, Times, X, Not;
    FrontIs(m);
    SwapBytes(data[off], data[off + 1], data[off + 2], data[off + 3]);
    SwapBytes(Not(m[0]), Not(m[1]), Not(m[2]), Not(m[3]));
    SwapTwice(BigEndian(Not(m[0]), Not(m[1]), Not(m[2]), Not(m[3])));
    NextWord([], Not(m[0]), Not(m[1]), Not(m[2]), Not(m[3]));
    NoBits();
    TimesZero(32);
    XorOrder(ZERO, Poly(BigEndian(Not(m[0]), Not(m[1]), Not(m[2]), Not(m[3]))), ZERO);
    XorOrder(Poly(BigEndian(Not(m[0]), Not(m[1]), Not(m[2]), Not(m[3]))), ZERO, ZERO);
  }

  lemma NoBits()
    ensures Rem(Bits([])) == ZERO
  {
  }

  lemma {:induction false} TimesZero(n: nat)
    ensures Times(ZERO, n) == ZERO
  {
    if n > 0 {
      TimesZero(n - 1);
    }
  }

  lemma NextInFront(m: seq<Byte>, p: nat, data: array<Byte>, off: nat, result: Word)
    requires 4 <= p && p + 4 <= |m| && off + |m| <= data.Length && m == data[off..off + |m|]
    requires |Front(m)| == |m| && Poly(Swap(result)) == Times(Rem(Bits(Front(m)[..p])), 32)
    ensures Poly(Swap(WordXor(result, WordAt(data, off + p)))) == Rem(Bits(Front(m)[..p + 4]))
  {
    hide Rem, Bits, LittleEndian, BigEndian, Swap, WordXor, Times, Front;
    FrontIs(m);
    var a, b, c, d := m[p], m[p + 1], m[p + 2], m[p + 3];
    assert Front(m)[4..][p - 4] == a && Front(m)[4..][p - 3] == b && Front(m)[4..][p - 2] == c
      && Front(m)[4..][p - 1] == d;
    FourNext(Front(m), p);
    NextWord(Front(m)[..p], a, b, c, d);
    SwapBytes(a, b, c, d);
    SwapTwice(BigEndian(a, b, c, d));
    SwapLinear(result, WordAt(data, off + p));
  }

  lemma FourNext<T>(s: seq<T>, p: nat)
    requires p + 4 <= |s|
    ensures s[..p + 4] == s[..p] + [s[p], s[p + 1], s[p + 2], s[p + 3]]
  {
  }
}
