/** The example of section 2.5.2 of RFC 8439, block by block. */
module Poly1305Example {
  import opened Spec = Poly1305Spec
  import opened Poly1305Words

  /** "Cryptographic Fo", "rum Research Gro" and "up". */
  const FIRST: seq<Spec.Byte> :=
    [0x43, 0x72, 0x79, 0x70, 0x74, 0x6f, 0x67, 0x72, 0x61, 0x70, 0x68, 0x69, 0x63, 0x20, 0x46, 0x6f]
  const SECOND: seq<Spec.Byte> :=
    [0x72, 0x75, 0x6d, 0x20, 0x52, 0x65, 0x73, 0x65, 0x61, 0x72, 0x63, 0x68, 0x20, 0x47, 0x72, 0x6f]
  const THIRD: seq<Spec.Byte> := [0x75, 0x70]

  /** The first half of the key, clamped, and the second half. */
  const KEY_R: int := 0x806d5400e52447c036d555408bed685
  const KEY_S: int := 0x1bf54941aff6bf4afdb20dfb8a800301

  lemma FirstStep()
    ensures BlockNumber(FIRST) == 0x16f4620636968706172676f7470797243
    ensures BlockNumber(FIRST) * KEY_R % Spec.P == 0x2c88c77849d64ae9147ddeb88e69c83fc
  {
    hide LittleEndian, Pow256;
    LittleEndian16(FIRST);
    Power16();
    var q := 0x2e0ffa647299a001224557735a7a109;
    assert BlockNumber(FIRST) * KEY_R == q * Spec.P + 0x2c88c77849d64ae9147ddeb88e69c83fc;
  }

  lemma SecondStep()
    ensures BlockNumber(SECOND) == 0x16f7247206863726165736552206d7572
    ensures (0x2c88c77849d64ae9147ddeb88e69c83fc + BlockNumber(SECOND)) * KEY_R % Spec.P
         == 0x2d8adaf23b0337fa7cccfb4ea344b30de
  {
    hide LittleEndian, Pow256;
    LittleEndian16(SECOND);
    Power16();
    var q := 0x8773264b431966e900dbd96edfe2158;
    assert (0x2c88c77849d64ae9147ddeb88e69c83fc + BlockNumber(SECOND)) * KEY_R
        == q * Spec.P + 0x2d8adaf23b0337fa7cccfb4ea344b30de;
  }

  lemma ThirdStep()
    ensures BlockNumber(THIRD) == 0x17075
    ensures (0x2d8adaf23b0337fa7cccfb4ea344b30de + BlockNumber(THIRD)) * KEY_R % Spec.P
         == 0x28d31b7caff946c77c8844335369d03a7
  {
    assert THIRD[1..] == [0x70] && THIRD[1..][1..] == [];
    assert LittleEndian([0x70]) == 0x70 && Pow256(2) == 0x1_0000;
    var q := 0x5b6382283cff87793f9285521ab29e8;
    assert (0x2d8adaf23b0337fa7cccfb4ea344b30de + BlockNumber(THIRD)) * KEY_R
        == q * Spec.P + 0x28d31b7caff946c77c8844335369d03a7;
  }

  lemma Power16()
    ensures Pow256(16) == TWO128
  {
    assert Pow256(8) == B64;
  }

  /** The tag of that message. */
  lemma TagOfExample()
    ensures Tag(FIRST + SECOND + THIRD, KEY_R, KEY_S) == 0xa927010caf8b2bc2c6365130c11d06a8
  {
    FirstStep();
    SecondStep();
    ThirdStep();
    hide BlockNumber;
    var m := FIRST + SECOND + THIRD;
    assert m[..16] == FIRST && m[16..] == SECOND + THIRD;
    assert (SECOND + THIRD)[..16] == SECOND && (SECOND + THIRD)[16..] == THIRD;
    var h1, h2, h3 := 0x2c88c77849d64ae9147ddeb88e69c83fc, 0x2d8adaf23b0337fa7cccfb4ea344b30de,
      0x28d31b7caff946c77c8844335369d03a7;
    assert Accumulate(h2, THIRD, KEY_R) == h3;
    assert Accumulate(h1, SECOND + THIRD, KEY_R) == Accumulate(h2, THIRD, KEY_R);
    assert Accumulate(0, m, KEY_R) == Accumulate(h1, SECOND + THIRD, KEY_R);
  }
}
