/** The table of the CRC, in rows of 16, and that its generator gives it. */
module Crc32Table {
  type Word = bv32

  const QUOTIENT: Word := 0x04c11db7

  /** Multiplication by x modulo x^32 + 0x04c11db7; the highest bit is the coefficient of
      x^31. */
  function MulX(c: Word): Word {
    if c & 0x80000000 != 0 then (c << 1) ^ QUOTIENT else c << 1
  }

  function MulX8(c: Word): Word {
    MulX(MulX(MulX(MulX(MulX(MulX(MulX(MulX(c))))))))
  }

  /** Reverses the bytes. */
  function Swap(c: Word): Word {
    (c << 24) | ((c & 0xff00) << 8) | ((c >> 8) & 0xff00) | (c >> 24)
  }

  /** The generated entry for the byte with these two halves. */
  function Entry(hi: Word, lo: Word): Word {
    Swap(MulX8((hi << 28) ^ (lo << 24)))
  }

  function Generated(hi: Word): seq<Word> {
    [Entry(hi, 0), Entry(hi, 1), Entry(hi, 2), Entry(hi, 3), Entry(hi, 4), Entry(hi, 5), Entry(hi, 6), Entry(hi, 7),
     Entry(hi, 8), Entry(hi, 9), Entry(hi, 10), Entry(hi, 11), Entry(hi, 12), Entry(hi, 13), Entry(hi, 14),
       Entry(hi, 15)]
  }

  const ROW_0: seq<Word> := [
    0x00000000, 0xb71dc104, 0x6e3b8209, 0xd926430d, 0xdc760413, 0x6b6bc517, 0xb24d861a, 0x0550471e,
    0xb8ed0826, 0x0ff0c922, 0xd6d68a2f, 0x61cb4b2b, 0x649b0c35, 0xd386cd31, 0x0aa08e3c, 0xbdbd4f38]
  const ROW_1: seq<Word> := [
    0x70db114c, 0xc7c6d048, 0x1ee09345, 0xa9fd5241, 0xacad155f, 0x1bb0d45b, 0xc2969756, 0x758b5652,
    0xc836196a, 0x7f2bd86e, 0xa60d9b63, 0x11105a67, 0x14401d79, 0xa35ddc7d, 0x7a7b9f70, 0xcd665e74]
  const ROW_2: seq<Word> := [
    0xe0b62398, 0x57abe29c, 0x8e8da191, 0x39906095, 0x3cc0278b, 0x8bdde68f, 0x52fba582, 0xe5e66486,
    0x585b2bbe, 0xef46eaba, 0x3660a9b7, 0x817d68b3, 0x842d2fad, 0x3330eea9, 0xea16ada4, 0x5d0b6ca0]
  const ROW_3: seq<Word> := [
    0x906d32d4, 0x2770f3d0, 0xfe56b0dd, 0x494b71d9, 0x4c1b36c7, 0xfb06f7c3, 0x2220b4ce, 0x953d75ca,
    0x28803af2, 0x9f9dfbf6, 0x46bbb8fb, 0xf1a679ff, 0xf4f63ee1, 0x43ebffe5, 0x9acdbce8, 0x2dd07dec]
  const ROW_4: seq<Word> := [
    0x77708634, 0xc06d4730, 0x194b043d, 0xae56c539, 0xab068227, 0x1c1b4323, 0xc53d002e, 0x7220c12a,
    0xcf9d8e12, 0x78804f16, 0xa1a60c1b, 0x16bbcd1f, 0x13eb8a01, 0xa4f64b05, 0x7dd00808, 0xcacdc90c]
  const ROW_5: seq<Word> := [
    0x07ab9778, 0xb0b6567c, 0x69901571, 0xde8dd475, 0xdbdd936b, 0x6cc0526f, 0xb5e61162, 0x02fbd066,
    0xbf469f5e, 0x085b5e5a, 0xd17d1d57, 0x6660dc53, 0x63309b4d, 0xd42d5a49, 0x0d0b1944, 0xba16d840]
  const ROW_6: seq<Word> := [
    0x97c6a5ac, 0x20db64a8, 0xf9fd27a5, 0x4ee0e6a1, 0x4bb0a1bf, 0xfcad60bb, 0x258b23b6, 0x9296e2b2,
    0x2f2bad8a, 0x98366c8e, 0x41102f83, 0xf60dee87, 0xf35da999, 0x4440689d, 0x9d662b90, 0x2a7bea94]
  const ROW_7: seq<Word> := [
    0xe71db4e0, 0x500075e4, 0x892636e9, 0x3e3bf7ed, 0x3b6bb0f3, 0x8c7671f7, 0x555032fa, 0xe24df3fe,
    0x5ff0bcc6, 0xe8ed7dc2, 0x31cb3ecf, 0x86d6ffcb, 0x8386b8d5, 0x349b79d1, 0xedbd3adc, 0x5aa0fbd8]
  const ROW_8: seq<Word> := [
    0xeee00c69, 0x59fdcd6d, 0x80db8e60, 0x37c64f64, 0x3296087a, 0x858bc97e, 0x5cad8a73, 0xebb04b77,
    0x560d044f, 0xe110c54b, 0x38368646, 0x8f2b4742, 0x8a7b005c, 0x3d66c158, 0xe4408255, 0x535d4351]
  const ROW_9: seq<Word> := [
    0x9e3b1d25, 0x2926dc21, 0xf0009f2c, 0x471d5e28, 0x424d1936, 0xf550d832, 0x2c769b3f, 0x9b6b5a3b,
    0x26d61503, 0x91cbd407, 0x48ed970a, 0xfff0560e, 0xfaa01110, 0x4dbdd014, 0x949b9319, 0x2386521d]
  const ROW_A: seq<Word> := [
    0x0e562ff1, 0xb94beef5, 0x606dadf8, 0xd7706cfc, 0xd2202be2, 0x653deae6, 0xbc1ba9eb, 0x0b0668ef,
    0xb6bb27d7, 0x01a6e6d3, 0xd880a5de, 0x6f9d64da, 0x6acd23c4, 0xddd0e2c0, 0x04f6a1cd, 0xb3eb60c9]
  const ROW_B: seq<Word> := [
    0x7e8d3ebd, 0xc990ffb9, 0x10b6bcb4, 0xa7ab7db0, 0xa2fb3aae, 0x15e6fbaa, 0xccc0b8a7, 0x7bdd79a3,
    0xc660369b, 0x717df79f, 0xa85bb492, 0x1f467596, 0x1a163288, 0xad0bf38c, 0x742db081, 0xc3307185]
  const ROW_C: seq<Word> := [
    0x99908a5d, 0x2e8d4b59, 0xf7ab0854, 0x40b6c950, 0x45e68e4e, 0xf2fb4f4a, 0x2bdd0c47, 0x9cc0cd43,
    0x217d827b, 0x9660437f, 0x4f460072, 0xf85bc176, 0xfd0b8668, 0x4a16476c, 0x93300461, 0x242dc565]
  const ROW_D: seq<Word> := [
    0xe94b9b11, 0x5e565a15, 0x87701918, 0x306dd81c, 0x353d9f02, 0x82205e06, 0x5b061d0b, 0xec1bdc0f,
    0x51a69337, 0xe6bb5233, 0x3f9d113e, 0x8880d03a, 0x8dd09724, 0x3acd5620, 0xe3eb152d, 0x54f6d429]
  const ROW_E: seq<Word> := [
    0x7926a9c5, 0xce3b68c1, 0x171d2bcc, 0xa000eac8, 0xa550add6, 0x124d6cd2, 0xcb6b2fdf, 0x7c76eedb,
    0xc1cba1e3, 0x76d660e7, 0xaff023ea, 0x18ede2ee, 0x1dbda5f0, 0xaaa064f4, 0x738627f9, 0xc49be6fd]
  const ROW_F: seq<Word> := [
    0x09fdb889, 0xbee0798d, 0x67c63a80, 0xd0dbfb84, 0xd58bbc9a, 0x62967d9e, 0xbbb03e93, 0x0cadff97,
    0xb110b0af, 0x060d71ab, 0xdf2b32a6, 0x6836f3a2, 0x6d66b4bc, 0xda7b75b8, 0x035d36b5, 0xb440f7b1]

  const CRCTAB: seq<seq<Word>> :=
    [ROW_0, ROW_1, ROW_2, ROW_3, ROW_4, ROW_5, ROW_6, ROW_7, ROW_8, ROW_9, ROW_A, ROW_B, ROW_C, ROW_D, ROW_E, ROW_F]

  lemma Rows0()
    ensures ROW_0 == Generated(0) && ROW_1 == Generated(1) && ROW_2 == Generated(2) && ROW_3 == Generated(3)
  {
  }

  lemma Rows1()
    ensures ROW_4 == Generated(4) && ROW_5 == Generated(5) && ROW_6 == Generated(6) && ROW_7 == Generated(7)
  {
  }

  lemma Rows2()
    ensures ROW_8 == Generated(8) && ROW_9 == Generated(9) && ROW_A == Generated(10) && ROW_B == Generated(11)
  {
  }

  lemma Rows3()
    ensures ROW_C == Generated(12) && ROW_D == Generated(13) && ROW_E == Generated(14) && ROW_F == Generated(15)
  {
  }

  /** Looking a byte up gives what the generator computes for it. */
  lemma TableEntry(hi: Word, lo: Word)
    requires hi < 16 && lo < 16
    ensures |CRCTAB| == 16 && |CRCTAB[hi as int]| == 16
    ensures CRCTAB[hi as int][lo as int] == Entry(hi, lo)
  {
    hide Entry;
    TableRow(hi);
    Column(hi, lo);
  }

  lemma TableRow(hi: Word)
    requires hi < 16
    ensures |CRCTAB| == 16 && CRCTAB[hi as int] == Generated(hi)
  {
    hide Generated;
    Rows0();
    Rows1();
    Rows2();
    Rows3();
    if hi < 8 {
      if hi < 4 {
        assert hi == 0 || hi == 1 || hi == 2 || hi == 3;
      } else {
        assert hi == 4 || hi == 5 || hi == 6 || hi == 7;
      }
    } else {
      if hi < 12 {
        assert hi == 8 || hi == 9 || hi == 10 || hi == 11;
      } else {
        assert hi == 12 || hi == 13 || hi == 14 || hi == 15;
      }
    }
  }

  lemma Column(hi: Word, lo: Word)
    requires lo < 16
    ensures |Generated(hi)| == 16 && Generated(hi)[lo as int] == Entry(hi, lo)
  {
    hide Entry;
    if lo < 8 {
      if lo < 4 {
        assert lo == 0 || lo == 1 || lo == 2 || lo == 3;
      } else {
        assert lo == 4 || lo == 5 || lo == 6 || lo == 7;
      }
    } else {
      if lo < 12 {
        assert lo == 8 || lo == 9 || lo == 10 || lo == 11;
      } else {
        assert lo == 12 || lo == 13 || lo == 14 || lo == 15;
      }
    }
  }
}
