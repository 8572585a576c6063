/** poly1305aes_53_clamp: seven bytes of r are masked in place.  Together they are the one
    128-bit mask of section 2.5 of RFC 8439. */
module Poly1305Clamp {
  import opened Arith
  import Spec = Poly1305Spec
  import opened Poly1305Words

  type Byte = Spec.Byte

  /** Bitwise and of two natural numbers. */
  function BitAnd(a: nat, b: nat): (r: nat)
    ensures r <= a && r <= b
  {
    if a == 0 || b == 0 then 0 else (if a % 2 == 1 && b % 2 == 1 then 1 else 0) + 2 * BitAnd(a / 2, b / 2)
  }

  function Power(n: nat): (r: nat)
    ensures r >= 1
  {
    if n == 0 then 1 else 2 * Power(n - 1)
  }

  lemma BitStep(a: nat, b: nat)
    ensures BitAnd(a, b) == (if a % 2 == 1 && b % 2 == 1 then 1 else 0) + 2 * BitAnd(a / 2, b / 2)
  {
  }

  lemma BitJoin(a: nat, b: nat, a': nat, b': nat)
    requires a % 2 == a' % 2 && b % 2 == b' % 2
    ensures BitAnd(a, b) - 2 * BitAnd(a / 2, b / 2) == BitAnd(a', b') - 2 * BitAnd(a' / 2, b' / 2)
  {
    BitStep(a, b);
    BitStep(a', b');
  }

  /** The low n bits and the bits above them do not interact. */
  lemma {:induction false} BitAndSplit(n: nat, x: nat, y: nat, a: nat, b: nat)
    requires x < Power(n) && a < Power(n)
    ensures BitAnd(x + Power(n) * y, a + Power(n) * b) == BitAnd(x, a) + Power(n) * BitAnd(y, b)
  {
    hide BitAnd;
    if n == 0 {
      BitStep(0, 0);
    } else {
      var p, z := Power(n - 1), BitAnd(y, b);
      BitAndSplit(n - 1, x / 2, y, a / 2, b);
      Halve(x, p, y, Power(n) * y);
      Halve(a, p, b, Power(n) * b);
      Halve(0, p, z, Power(n) * z);
      BitJoin(x + Power(n) * y, a + Power(n) * b, x, a);
    }
  }

  lemma Halve(x: nat, p: nat, y: nat, w: nat)
    requires w == 2 * p * y
    ensures w == 2 * (p * y) && (x + w) % 2 == x % 2 && (x + w) / 2 == x / 2 + p * y
  {
  }

  lemma {:induction false} LowMask(n: nat, x: nat)
    ensures BitAnd(x, Power(n) - 1) == x % Power(n)
  {
    if n > 0 {
      LowMask(n - 1, x / 2);
      BitStep(x, Power(n) - 1);
      var p := Power(n - 1);
      assert (2 * p - 1) / 2 == p - 1 && (2 * p - 1) % 2 == 1;
      DoubleModulus(x, p);
    }
  }

  lemma DoubleModulus(x: nat, p: nat)
    requires p >= 1
    ensures x % (2 * p) == x % 2 + 2 * (x / 2 % p)
  {
    var q, r := x / 2 / p, x / 2 % p;
    assert x == 2 * (q * p + r) + x % 2;
    Division(x, q, 2 * r + x % 2, 2 * p);
  }

  /** The three byte masks the clamp uses, and the byte it leaves alone. */
  lemma ByteMasks(x: Byte)
    ensures BitAnd(x, 255) == x && BitAnd(x, 15) == x % 16 && BitAnd(x, 252) == x - x % 4
  {
    hide BitAnd;
    assert Power(8) == 256 && Power(4) == 16 && Power(2) == 4 && Power(6) == 64;
    LowMask(8, x);
    LowMask(4, x);
    LowMask(6, x / 4);
    BitAndSplit(2, x % 4, x / 4, 0, 63);
  }

  /** The mask byte by byte, lowest first. */
  const MASK: seq<Byte> := [255, 255, 255, 15, 252, 255, 255, 15, 252, 255, 255, 15, 252, 255, 255, 15]

  lemma {:induction false} BytesAnd(r: seq<Byte>, mask: seq<Byte>, c: seq<Byte>)
    requires |r| == |mask| == |c|
    requires forall i :: 0 <= i < |r| ==> c[i] == BitAnd(r[i], mask[i])
    ensures Spec.LittleEndian(c) == BitAnd(Spec.LittleEndian(r), Spec.LittleEndian(mask))
  {
    hide BitAnd;
    if r == [] {
      BitStep(0, 0);
    } else {
      assert Power(8) == 256;
      BytesAnd(r[1..], mask[1..], c[1..]);
      assert c[0] == BitAnd(r[0], mask[0]);
      BitAndSplit(8, r[0], Spec.LittleEndian(r[1..]), mask[0], Spec.LittleEndian(mask[1..]));
    }
  }

  lemma MaskNumber()
    ensures Spec.LittleEndian(MASK) == 0x0ffffffc_0ffffffc_0ffffffc_0fffffff
  {
    hide Spec.LittleEndian;
    LittleEndian16(MASK);
  }

  /** Seven bytes are masked, the others kept: each is the byte and its mask. */
  lemma EachMasked(r: seq<Byte>, c: seq<Byte>)
    requires |r| == |c| == 16
    requires c == r[3 := BitAnd(r[3], 15)][7 := BitAnd(r[7], 15)][11 := BitAnd(r[11], 15)][15 := BitAnd(r[15], 15)]
      [4 := BitAnd(r[4], 252)][8 := BitAnd(r[8], 252)][12 := BitAnd(r[12], 252)]
    ensures forall i :: 0 <= i < 16 ==>
      c[i] == BitAnd(r[i], MASK[i]) && (MASK[i] == 15 ==> c[i] < 16) && (MASK[i] == 252 ==> c[i] % 4 == 0)
  {
    hide BitAnd;
    forall i | 0 <= i < 16
      ensures c[i] == BitAnd(r[i], MASK[i]) && (MASK[i] == 15 ==> c[i] < 16) && (MASK[i] == 252 ==> c[i] % 4 == 0)
    {
      ByteMasks(r[i]);
    }
  }

  /** What the clamp makes of r, as one 128-bit operation. */
  method Clamp(kr: array<Byte>)
    requires kr.Length == 32
    modifies kr
    ensures Spec.Clamped(kr[16..])
    ensures Spec.LittleEndian(kr[16..])
         == BitAnd(Spec.LittleEndian(old(kr[16..])), 0x0ffffffc_0ffffffc_0ffffffc_0fffffff)
    ensures kr[..16] == old(kr[..16])
  {
    hide BitAnd, Spec.LittleEndian;
    ghost var r := kr[16..];
    var r3, r7, r11, r15 := kr[19], kr[23], kr[27], kr[31];
    var r4, r8, r12 := kr[20], kr[24], kr[28];
    kr[19] := BitAnd(r3, 15);
    kr[23] := BitAnd(r7, 15);
    kr[27] := BitAnd(r11, 15);
    kr[31] := BitAnd(r15, 15);
    kr[20] := BitAnd(r4, 252);
    kr[24] := BitAnd(r8, 252);
    kr[28] := BitAnd(r12, 252);
    ghost var c := kr[16..];
    EachMasked(r, c);
    BytesAnd(r, MASK, c);
    MaskNumber();
  }
}
