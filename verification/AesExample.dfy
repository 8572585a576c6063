/** The example of Appendix B of FIPS 197, round by round. */
module AesExample {
  import opened AesTable
  import opened Aes

  /** The round keys, and the states at the start of the rounds. */
  const KEYS: seq<State> := [
    State(0x2b7e1516, 0x28aed2a6, 0xabf71588, 0x09cf4f3c),
    State(0xa0fafe17, 0x88542cb1, 0x23a33939, 0x2a6c7605),
    State(0xf2c295f2, 0x7a96b943, 0x5935807a, 0x7359f67f),
    State(0x3d80477d, 0x4716fe3e, 0x1e237e44, 0x6d7a883b),
    State(0xef44a541, 0xa8525b7f, 0xb671253b, 0xdb0bad00),
    State(0xd4d1c6f8, 0x7c839d87, 0xcaf2b8bc, 0x11f915bc),
    State(0x6d88a37a, 0x110b3efd, 0xdbf98641, 0xca0093fd),
    State(0x4e54f70e, 0x5f5fc9f3, 0x84a64fb2, 0x4ea6dc4f),
    State(0xead27321, 0xb58dbad2, 0x312bf560, 0x7f8d292f),
    State(0xac7766f3, 0x19fadc21, 0x28d12941, 0x575c006e),
    State(0xd014f9a8, 0xc9ee2589, 0xe13f0cc8, 0xb6630ca6)]

  const STATES: seq<State> := [
    State(0x193de3be, 0xa0f4e22b, 0x9ac68d2a, 0xe9f84808),
    State(0xa49c7ff2, 0x689f352b, 0x6b5bea43, 0x026a5049),
    State(0xaa8f5f03, 0x61dde3ef, 0x82d24ad2, 0x6832469a),
    State(0x486c4eee, 0x671d9d0d, 0x4de3b138, 0xd65f58e7),
    State(0xe0927fe8, 0xc86363c0, 0xd9b13550, 0x85b8be01),
    State(0xf1006f55, 0xc1924cef, 0x7cc88b32, 0x5db5d50c),
    State(0x260e2e17, 0x3d41b77d, 0xe86472a9, 0xfdd28b25),
    State(0x5a4142b1, 0x1949dc1f, 0xa3e01965, 0x7a8c040c),
    State(0xea835cf0, 0x0445332d, 0x655d98ad, 0x8596b0c5),
    State(0xeb40f21e, 0x592e3884, 0x8ba113e7, 0x1bc342d2)]

  const INPUT: State := State(0x3243f6a8, 0x885a308d, 0x313198a2, 0xe0370734)
  const OUTPUT: State := State(0x3925841d, 0x02dc09fb, 0xdc118597, 0x196a0b32)

  /** The round key after k, where r is the round constant. */
  function Following(k: State, r: Word): State {
    var c0 := Xor(k.c0, Xor(SubWord(RotWord(k.c3)), r));
    var c1 := Xor(k.c1, c0);
    var c2 := Xor(k.c2, c1);
    State(c0, c1, c2, Xor(k.c3, c2))
  }

  function FullRoundOf(s: State, k: State): State {
    AddRoundKey(MixColumns(ShiftRows(SubBytes(s))), k)
  }

  lemma KeyWord0()
    ensures SubWord(0xcf4f3c09) == 0x8a84eb01
  {
  }

  lemma KeyWord1()
    ensures SubWord(0x6c76052a) == 0x50386be5
  {
  }

  lemma KeyWord2()
    ensures SubWord(0x59f67f73) == 0xcb42d28f
  {
  }

  lemma KeyWord3()
    ensures SubWord(0x7a883b6d) == 0xdac4e23c
  {
  }

  lemma KeyWord4()
    ensures SubWord(0x0bad00db) == 0x2b9563b9
  {
  }

  lemma KeyWord5()
    ensures SubWord(0xf915bc11) == 0x99596582
  {
  }

  lemma KeyWord6()
    ensures SubWord(0x0093fdca) == 0x63dc5474
  {
  }

  lemma KeyWord7()
    ensures SubWord(0xa6dc4f4e) == 0x2486842f
  {
  }

  lemma KeyWord8()
    ensures SubWord(0x8d292f7f) == 0x5da515d2
  {
  }

  lemma KeyWord9()
    ensures SubWord(0x5c006e57) == 0x4a639f5b
  {
  }

  lemma KeysFollow(i: nat)
    requires i < 10
    ensures Following(KEYS[i], Rcon(i + 1)) == KEYS[i + 1]
  {
    hide SubWord, Rcon;
    RconKnown(i);
    if i < 5 {
      KeyWord0();
      KeyWord1();
      KeyWord2();
      KeyWord3();
      KeyWord4();
    } else {
      KeyWord5();
      KeyWord6();
      KeyWord7();
      KeyWord8();
      KeyWord9();
    }
  }

  lemma Sub00()
    ensures SubWord(0x193de3be) == 0xd42711ae
  {
  }

  lemma Sub01()
    ensures SubWord(0xa0f4e22b) == 0xe0bf98f1
  {
  }

  lemma Sub02()
    ensures SubWord(0x9ac68d2a) == 0xb8b45de5
  {
  }

  lemma Sub03()
    ensures SubWord(0xe9f84808) == 0x1e415230
  {
  }

  lemma Sub10()
    ensures SubWord(0xa49c7ff2) == 0x49ded289
  {
  }

  lemma Sub11()
    ensures SubWord(0x689f352b) == 0x45db96f1
  {
  }

  lemma Sub12()
    ensures SubWord(0x6b5bea43) == 0x7f39871a
  {
  }

  lemma Sub13()
    ensures SubWord(0x026a5049) == 0x7702533b
  {
  }

  lemma Sub20()
    ensures SubWord(0xaa8f5f03) == 0xac73cf7b
  {
  }

  lemma Sub21()
    ensures SubWord(0x61dde3ef) == 0xefc111df
  {
  }

  lemma Sub22()
    ensures SubWord(0x82d24ad2) == 0x13b5d6b5
  {
  }

  lemma Sub23()
    ensures SubWord(0x6832469a) == 0x45235ab8
  {
  }

  lemma Sub30()
    ensures SubWord(0x486c4eee) == 0x52502f28
  {
  }

  lemma Sub31()
    ensures SubWord(0x671d9d0d) == 0x85a45ed7
  {
  }

  lemma Sub32()
    ensures SubWord(0x4de3b138) == 0xe311c807
  {
  }

  lemma Sub33()
    ensures SubWord(0xd65f58e7) == 0xf6cf6a94
  {
  }

  lemma Sub40()
    ensures SubWord(0xe0927fe8) == 0xe14fd29b
  {
  }

  lemma Sub41()
    ensures SubWord(0xc86363c0) == 0xe8fbfbba
  {
  }

  lemma Sub42()
    ensures SubWord(0xd9b13550) == 0x35c89653
  {
  }

  lemma Sub43()
    ensures SubWord(0x85b8be01) == 0x976cae7c
  {
  }

  lemma Sub50()
    ensures SubWord(0xf1006f55) == 0xa163a8fc
  {
  }

  lemma Sub51()
    ensures SubWord(0xc1924cef) == 0x784f29df
  {
  }

  lemma Sub52()
    ensures SubWord(0x7cc88b32) == 0x10e83d23
  {
  }

  lemma Sub53()
    ensures SubWord(0x5db5d50c) == 0x4cd503fe
  {
  }

  lemma Sub60()
    ensures SubWord(0x260e2e17) == 0xf7ab31f0
  {
  }

  lemma Sub61()
    ensures SubWord(0x3d41b77d) == 0x2783a9ff
  {
  }

  lemma Sub62()
    ensures SubWord(0xe86472a9) == 0x9b4340d3
  {
  }

  lemma Sub63()
    ensures SubWord(0xfdd28b25) == 0x54b53d3f
  {
  }

  lemma Sub70()
    ensures SubWord(0x5a4142b1) == 0xbe832cc8
  {
  }

  lemma Sub71()
    ensures SubWord(0x1949dc1f) == 0xd43b86c0
  {
  }

  lemma Sub72()
    ensures SubWord(0xa3e01965) == 0x0ae1d44d
  {
  }

  lemma Sub73()
    ensures SubWord(0x7a8c040c) == 0xda64f2fe
  {
  }

  lemma Sub80()
    ensures SubWord(0xea835cf0) == 0x87ec4a8c
  {
  }

  lemma Sub81()
    ensures SubWord(0x0445332d) == 0xf26ec3d8
  {
  }

  lemma Sub82()
    ensures SubWord(0x655d98ad) == 0x4d4c4695
  {
  }

  lemma Sub83()
    ensures SubWord(0x8596b0c5) == 0x9790e7a6
  {
  }

  lemma Sub90()
    ensures SubWord(0xeb40f21e) == 0xe9098972
  {
  }

  lemma Sub91()
    ensures SubWord(0x592e3884) == 0xcb31075f
  {
  }

  lemma Sub92()
    ensures SubWord(0x8ba113e7) == 0x3d327d94
  {
  }

  lemma Sub93()
    ensures SubWord(0x1bc342d2) == 0xaf2e2cb5
  {
  }

  lemma Mixed1()
    ensures MixColumn(0xd4bf5d30) == 0x046681e5 && MixColumn(0xe0b452ae) == 0xe0cb199a
    ensures MixColumn(0xb84111f1) == 0x48f8d37a && MixColumn(0x1e2798e5) == 0x2806264c
  {
  }

  lemma Mixed2()
    ensures MixColumn(0x49db873b) == 0x584dcaf1 && MixColumn(0x45395389) == 0x1b4b5aac
    ensures MixColumn(0x7f02d2f1) == 0xdbe7caa8 && MixColumn(0x77de961a) == 0x1b6bb0e5
  {
  }

  lemma Mixed3()
    ensures MixColumn(0xacc1d6b8) == 0x75ec0993 && MixColumn(0xefb55a7b) == 0x200b6333
    ensures MixColumn(0x1323cfdf) == 0x53c0cf7c && MixColumn(0x457311b5) == 0xbb25d0dc
  {
  }

  lemma Mixed4()
    ensures MixColumn(0x52a4c894) == 0x0fd6daa9 && MixColumn(0x85116a28) == 0x603138bf
    ensures MixColumn(0xe3cf2fd7) == 0x6fc0106b && MixColumn(0xf6505e07) == 0x5eb31301
  {
  }

  lemma Mixed5()
    ensures MixColumn(0xe1fb967c) == 0x25d1a9ad && MixColumn(0xe8c8ae9b) == 0xbd11d168
    ensures MixColumn(0x356cd2ba) == 0xb63a338e && MixColumn(0x974ffb53) == 0x4c4cc0b0
  {
  }

  lemma Mixed6()
    ensures MixColumn(0xa14f3dfe) == 0x4b868d6d && MixColumn(0x78e803fc) == 0x2c4a8980
    ensures MixColumn(0x10d5a8df) == 0x339df4e8 && MixColumn(0x4c632923) == 0x37d218d8
  {
  }

  lemma Mixed7()
    ensures MixColumn(0xf783403f) == 0x1415b5bf && MixColumn(0x27433df0) == 0x461615ec
    ensures MixColumn(0x9bb531ff) == 0x274656d7 && MixColumn(0x54aba9d3) == 0x342ad843
  {
  }

  lemma Mixed8()
    ensures MixColumn(0xbe3bd4fe) == 0x00512fd1 && MixColumn(0xd4e1f2c8) == 0xb1c889ff
    ensures MixColumn(0x0a642cc0) == 0x54766dcd && MixColumn(0xda83864d) == 0xfa1b99ea
  {
  }

  lemma Mixed9()
    ensures MixColumn(0x876e46a6) == 0x473794ed && MixColumn(0xf24ce78c) == 0x40d4e4a5
    ensures MixColumn(0x4d904ad8) == 0xa3703aa6 && MixColumn(0x97ecc395) == 0x4c9f42bc
  {
  }

  lemma FirstRounds(i: nat)
    requires i < 3
    ensures FullRoundOf(STATES[i], KEYS[i + 1]) == STATES[i + 1]
  {
    hide SubWord, MixColumn;
    if i == 0 {
      Mixed1();
      Sub00();
      Sub01();
      Sub02();
      Sub03();
    } else if i == 1 {
      Mixed2();
      Sub10();
      Sub11();
      Sub12();
      Sub13();
    } else {
      Mixed3();
      Sub20();
      Sub21();
      Sub22();
      Sub23();
    }
  }

  lemma MiddleRounds(i: nat)
    requires 3 <= i < 6
    ensures FullRoundOf(STATES[i], KEYS[i + 1]) == STATES[i + 1]
  {
    hide SubWord, MixColumn;
    if i == 3 {
      Mixed4();
      Sub30();
      Sub31();
      Sub32();
      Sub33();
    } else if i == 4 {
      Mixed5();
      Sub40();
      Sub41();
      Sub42();
      Sub43();
    } else {
      Mixed6();
      Sub50();
      Sub51();
      Sub52();
      Sub53();
    }
  }

  lemma LastRounds(i: nat)
    requires 6 <= i < 9
    ensures FullRoundOf(STATES[i], KEYS[i + 1]) == STATES[i + 1]
  {
    hide SubWord, MixColumn;
    if i == 6 {
      Mixed7();
      Sub60();
      Sub61();
      Sub62();
      Sub63();
    } else if i == 7 {
      Mixed8();
      Sub70();
      Sub71();
      Sub72();
      Sub73();
    } else {
      Mixed9();
      Sub80();
      Sub81();
      Sub82();
      Sub83();
    }
  }

  lemma {:induction false} KeyOfRound(key: State, i: nat)
    requires key == KEYS[0] && i <= 10
    ensures RoundKey(key, i) == KEYS[i]
  {
    hide SubWord, RotWord, Xor, Rcon, ExpandedKey;
    if i == 0 {
      FirstKey(key);
    } else {
      KeyOfRound(key, i - 1);
      KeysFollow(i - 1);
      NextKey(key, i - 1, Xor(SubWord(RotWord(RoundKey(key, i - 1).c3)), Rcon(i)));
    }
  }

  lemma {:induction false} StateOfRound(key: State, input: State, i: nat)
    requires key == KEYS[0] && input == INPUT && i <= 9
    ensures Rounds(key, input, i) == STATES[i]
  {
    hide RoundKey, MixColumns, ShiftRows, SubBytes;
    KeyOfRound(key, i);
    if i > 0 {
      hide AddRoundKey;
      StateOfRound(key, input, i - 1);
      if i <= 3 {
        FirstRounds(i - 1);
      } else if i <= 6 {
        MiddleRounds(i - 1);
      } else {
        LastRounds(i - 1);
      }
    }
  }

  lemma CipherOfExample(key: State, input: State)
    requires key == KEYS[0] && input == INPUT
    ensures Cipher(key, input) == OUTPUT
  {
    hide RoundKey, SubWord, Rounds;
    StateOfRound(key, input, 9);
    KeyOfRound(key, 10);
    Sub90();
    Sub91();
    Sub92();
    Sub93();
  }

  lemma LoadedFrom(a: array<Byte>, i: nat, b: seq<Byte>)
    requires i + 4 <= a.Length && |b| == 4
    ensures Load(a, i) == Column(Wide(b[0]), Wide(b[1]), Wide(b[2]), Wide(b[3])) <==> a[i..i + 4] == b
  {
    hide Column, Wide;
    SameColumn(a[i], a[i + 1], a[i + 2], a[i + 3], b[0], b[1], b[2], b[3]);
    assert a[i..i + 4] == [a[i], a[i + 1], a[i + 2], a[i + 3]];
    assert b == [b[0], b[1], b[2], b[3]];
  }

  lemma SameColumn(a: Byte, b: Byte, c: Byte, d: Byte, e: Byte, f: Byte, g: Byte, h: Byte)
    ensures Column(Wide(a), Wide(b), Wide(c), Wide(d)) == Column(Wide(e), Wide(f), Wide(g), Wide(h)) <==>
            a == e && b == f && c == g && d == h
  {
  }

  const KEY_BYTES: seq<Byte> :=
    [0x2b, 0x7e, 0x15, 0x16, 0x28, 0xae, 0xd2, 0xa6, 0xab, 0xf7, 0x15, 0x88, 0x09, 0xcf, 0x4f, 0x3c]
  const INPUT_BYTES: seq<Byte> :=
    [0x32, 0x43, 0xf6, 0xa8, 0x88, 0x5a, 0x30, 0x8d, 0x31, 0x31, 0x98, 0xa2, 0xe0, 0x37, 0x07, 0x34]
  const OUTPUT_BYTES: seq<Byte> :=
    [0x39, 0x25, 0x84, 0x1d, 0x02, 0xdc, 0x09, 0xfb, 0xdc, 0x11, 0x85, 0x97, 0x19, 0x6a, 0x0b, 0x32]

  function StateOf(b: seq<Byte>): State
    requires |b| == 16
  {
    State(Column(Wide(b[0]), Wide(b[1]), Wide(b[2]), Wide(b[3])),
          Column(Wide(b[4]), Wide(b[5]), Wide(b[6]), Wide(b[7])),
          Column(Wide(b[8]), Wide(b[9]), Wide(b[10]), Wide(b[11])),
          Column(Wide(b[12]), Wide(b[13]), Wide(b[14]), Wide(b[15])))
  }

  lemma LoadedState(a: array<Byte>, b: seq<Byte>)
    requires a.Length == |b| == 16
    ensures LoadState(a) == StateOf(b) <==> a[..] == b
  {
    hide Column, Wide, Load;
    LoadedFrom(a, 0, b[..4]);
    LoadedFrom(a, 4, b[4..8]);
    LoadedFrom(a, 8, b[8..12]);
    LoadedFrom(a, 12, b[12..]);
    assert a[..] == a[0..4] + a[4..8] + a[8..12] + a[12..16];
    assert b == b[..4] + b[4..8] + b[8..12] + b[12..];
  }

  lemma ExampleBytes()
    ensures StateOf(KEY_BYTES) == KEYS[0] && StateOf(INPUT_BYTES) == INPUT && StateOf(OUTPUT_BYTES) == OUTPUT
  {
  }

  /** The key and the block of the example give its output. */
  method AesOfExample(out: array<Byte>, k: array<Byte>, n: array<Byte>)
    requires out.Length == k.Length == n.Length == 16 && k[..] == KEY_BYTES && n[..] == INPUT_BYTES
    modifies out
    ensures out[..] == OUTPUT_BYTES
  {
    hide LoadState, StateOf, Cipher;
    LoadedState(k, KEY_BYTES);
    LoadedState(n, INPUT_BYTES);
    ExampleBytes();
    CipherOfExample(KEYS[0], INPUT);
    AesBig(out, k, n);
    LoadedState(out, OUTPUT_BYTES);
  }
}
