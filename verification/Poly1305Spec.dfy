/** Poly1305 as section 2.5 of RFC 8439 defines it, over mathematical integers. */
module Poly1305Spec {

  type Byte = x: int | 0 <= x < 256

  const P: int := 0x3_ffff_ffff_ffff_ffff_ffff_ffff_ffff_fffb
  const TWO128: int := 0x1_0000_0000_0000_0000_0000_0000_0000_0000

  function Pow256(n: nat): (r: int)
    ensures r >= 1
  {
    if n == 0 then 1 else 256 * Pow256(n - 1)
  }

  /** The number with little-endian digits b. */
  function LittleEndian(b: seq<Byte>): (r: nat)
    ensures r < Pow256(|b|)
  {
    if b == [] then 0 else b[0] + 256 * LittleEndian(b[1..])
  }

  /** The number of one block: its bytes, little-endian, with one more byte 1 on top. */
  function BlockNumber(b: seq<Byte>): nat {
    LittleEndian(b) + Pow256(|b|)
  }

  /** The accumulator after the remaining message m, starting from h. */
  function Accumulate(h: int, m: seq<Byte>, r: int): int
    decreases |m|
  {
    if m == [] then h
    else if |m| < 16 then (h + BlockNumber(m)) * r % P
    else Accumulate((h + BlockNumber(m[..16])) * r % P, m[16..], r)
  }

  function Tag(m: seq<Byte>, r: int, s: int): int {
    (Accumulate(0, m, r) + s) % TWO128
  }

  /** What clamping leaves of r: the top four bits of bytes 3, 7, 11, 15 and the bottom two
      bits of bytes 4, 8, 12 are clear. */
  predicate Clamped(r: seq<Byte>) {
    && |r| == 16
    && r[3] < 16 && r[7] < 16 && r[11] < 16 && r[15] < 16
    && r[4] % 4 == 0 && r[8] % 4 == 0 && r[12] % 4 == 0
  }
}

/** The modulus, powers of two, and little-endian numbers four bytes at a time. */
module Poly1305Words {
  import Spec = Poly1305Spec

  type Byte = Spec.Byte

  const P: int := Spec.P

  const B16: int := 0x1_0000
  const B32: int := 0x1_0000_0000
  const B48: int := 0x1_0000_0000_0000
  const B64: int := 0x1_0000_0000_0000_0000
  const B80: int := 0x1_0000_0000_0000_0000_0000
  const B96: int := 0x1_0000_0000_0000_0000_0000_0000
  const B112: int := 0x1_0000_0000_0000_0000_0000_0000_0000
  const B128: int := 0x1_0000_0000_0000_0000_0000_0000_0000_0000

  function Word(b0: int, b1: int, b2: int, b3: int): int {
    b0 + 0x100 * b1 + 0x1_0000 * b2 + 0x100_0000 * b3
  }

  lemma LittleEndianWord(b: seq<Byte>)
    requires |b| >= 4
    ensures Spec.LittleEndian(b) == Word(b[0], b[1], b[2], b[3]) + B32 * Spec.LittleEndian(b[4..])
  {
    assert b[1..][1..] == b[2..] && b[2..][1..] == b[3..] && b[3..][1..] == b[4..];
    assert Spec.LittleEndian(b[2..]) == b[2] + 0x100 * Spec.LittleEndian(b[3..]);
    assert Spec.LittleEndian(b[3..]) == b[3] + 0x100 * Spec.LittleEndian(b[4..]);
  }

  lemma LittleEndian16(b: seq<Byte>)
    requires |b| == 16
    ensures Spec.LittleEndian(b)
         == Word(b[0], b[1], b[2], b[3]) + B32 * Word(b[4], b[5], b[6], b[7])
          + B64 * Word(b[8], b[9], b[10], b[11]) + B96 * Word(b[12], b[13], b[14], b[15])
  {
    assert b[4..][4..] == b[8..] && b[8..][4..] == b[12..] && b[12..][4..] == [];
    LittleEndianWord(b);
    LittleEndianWord(b[4..]);
    LittleEndianWord(b[8..]);
    LittleEndianWord(b[12..]);
  }

  lemma WordRange(b0: Byte, b1: Byte, b2: Byte, b3: Byte)
    ensures 0 <= Word(b0, b1, b2, b3) < B32
  {
  }
}
