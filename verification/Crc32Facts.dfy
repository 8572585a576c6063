/** What the CRC is, word by word and without its definition: these facts determine it. */
module Crc32Facts {
  import opened Crc32Table
  import opened Crc32

  /** Swapped back and complemented back, the CRC of whole words is a remainder. */
  lemma Remainder(m: seq<Byte>)
    requires |m| > 0 && |m| % 4 == 0
    ensures Poly(Swap(!Crc(m))) == Rem(Bits(Front(m)))
  {
    hide Rem, Bits, Front, Swap;
    assert Padded(m) == m;
    SwapTwice(Rem(Bits(Front(m))).word);
    SwapTwice(Swap(Rem(Bits(Front(m))).word));
  }

  /** The first byte in memory is the lowest one. */
  lemma LowestFirst()
    ensures LittleEndian(1, 2, 3, 4) == 0x04030201 && BigEndian(1, 2, 3, 4) == 0x01020304
    ensures Swap(0x01020304) == 0x04030201
  {
  }

  lemma FirstRemainder(a: Byte, b: Byte, c: Byte, d: Byte)
    ensures Rem(Bits([a, b, c, d])) == Poly(BigEndian(a, b, c, d))
  {
    hide Rem, Bits, BigEndian, Xor, Times;
    assert [] + [a, b, c, d] == [a, b, c, d];
    NextWord([], a, b, c, d);
    NoBits();
    TimesZero(32);
    var word := Poly(BigEndian(a, b, c, d));
    XorOrder(ZERO, word, ZERO);
    XorOrder(word, ZERO, ZERO);
  }

  /** A message of one word is its own CRC. */
  lemma OneWord(a: Byte, b: Byte, c: Byte, d: Byte)
    ensures Crc([a, b, c, d]) == LittleEndian(a, b, c, d)
  {
    hide Rem, Bits, LittleEndian, BigEndian, Swap, Not, Crc;
    var m := [a, b, c, d];
    Remainder(m);
    assert Padded(m) == m;
    assert Front(m) == [Not(a), Not(b), Not(c), Not(d)];
    FirstRemainder(Not(a), Not(b), Not(c), Not(d));
    SwapBytes(Not(a), Not(b), Not(c), Not(d));
    SwapBytes(a, b, c, d);
    SwapTwice(!Crc(m));
    SwapTwice(Crc(m));
    SwapTwice(LittleEndian(a, b, c, d));
  }

  /** One more word: what was there is multiplied by x^32, and the word is added. */
  lemma OneWordMore(m: seq<Byte>, a: Byte, b: Byte, c: Byte, d: Byte)
    requires |m| > 0 && |m| % 4 == 0
    ensures Poly(Swap(!Crc(m + [a, b, c, d]))) == Xor(Times(Poly(Swap(!Crc(m))), 32), Poly(BigEndian(a, b, c, d)))
  {
    hide Rem, Bits, BigEndian, Swap, Xor, Times, Not, Crc;
    Remainder(m);
    Remainder(m + [a, b, c, d]);
    assert Front(m + [a, b, c, d]) == Front(m) + [a, b, c, d];
    NextWord(Front(m), a, b, c, d);
  }

  /** A zero byte more changes nothing before the word is complete. */
  lemma ZeroMore(m: seq<Byte>)
    requires |m| % 4 != 0
    ensures Crc(m + [0]) == Crc(m)
  {
    hide Rem, Bits, Front, Swap;
    assert Padded(m + [0]) == Padded(m);
  }
}
