/** AES-128 by tables with the key schedule computed on the way, against the cipher of
    FIPS 197. */
module Aes {
  import opened AesTable

  type Byte = bv8

  // ------ words; only these few facts look at bits

  lemma XorOrder(a: Word, b: Word, c: Word)
    ensures Xor(Xor(a, b), c) == Xor(a, Xor(b, c)) && Xor(a, b) == Xor(b, a)
  {
  }

  lemma Shift24Sum(a: Word, b: Word)
    ensures Shift24(Xor(a, b)) == Xor(Shift24(a), Shift24(b))
  {
  }

  lemma Shift16Sum(a: Word, b: Word)
    ensures Shift16(Xor(a, b)) == Xor(Shift16(a), Shift16(b))
  {
  }

  lemma Shift8Sum(a: Word, b: Word)
    ensures Shift8(Xor(a, b)) == Xor(Shift8(a), Shift8(b))
  {
  }

  lemma FourSums(a: Word, b: Word, c: Word, d: Word)
    ensures Xor(Xor(a, b), Xor(c, d)) == Xor(Xor(a, c), Xor(b, d))
  {
    hide Xor;
    XorOrder(a, b, Xor(c, d));
    XorOrder(b, c, d);
    XorOrder(c, b, d);
    XorOrder(a, c, Xor(b, d));
  }

  /** Columns are added byte by byte. */
  lemma ColumnSum(a: Word, b: Word, c: Word, d: Word, e: Word, f: Word, g: Word, h: Word)
    ensures Xor(Column(a, b, c, d), Column(e, f, g, h)) == Column(Xor(a, e), Xor(b, f), Xor(c, g), Xor(d, h))
  {
    hide Xor, Shift24, Shift16, Shift8;
    Shift24Sum(a, e);
    Shift16Sum(b, f);
    Shift8Sum(c, g);
    var p, q := Xor(Shift24(a), Shift16(b)), Xor(Shift24(e), Shift16(f));
    FourSums(Xor(p, Shift8(c)), d, Xor(q, Shift8(g)), h);
    FourSums(p, Shift8(c), q, Shift8(g));
    FourSums(Shift24(a), Shift16(b), Shift24(e), Shift16(f));
  }

  /** Byte r of a column, 0 being the highest. */
  function At0(w: Word): Word { w >> 24 }

  function At1(w: Word): Word { (w >> 16) & 0xff }

  function At2(w: Word): Word { (w >> 8) & 0xff }

  function At3(w: Word): Word { w & 0xff }

  lemma ColumnBytes(a: Word, b: Word, c: Word, d: Word)
    requires a < 0x100 && b < 0x100 && c < 0x100 && d < 0x100
    ensures var w := Column(a, b, c, d); At0(w) == a && At1(w) == b && At2(w) == c && At3(w) == d
  {
  }

  // The table offsets of the four bytes.
  function Offset0(w: Word): Word { (w >> 20) & 4080 }

  function Offset1(w: Word): Word { (w >> 12) & 4080 }

  function Offset2(w: Word): Word { (w >> 4) & 4080 }

  function Offset3(w: Word): Word { (w << 4) & 4080 }

  lemma Offsets(w: Word)
    ensures IsOffset(Offset0(w)) && IsOffset(Offset1(w)) && IsOffset(Offset2(w)) && IsOffset(Offset3(w))
    ensures Number(Offset0(w)) == At0(w) && Number(Offset1(w)) == At1(w) && Number(Offset2(w)) == At2(w)
    ensures Number(Offset3(w)) == At3(w)
  {
  }

  // ------ FIPS 197, sections 5.1 and 5.2

  /** The state, or a round key, as four columns. */
  datatype State = State(c0: Word, c1: Word, c2: Word, c3: Word)

  function SubWord(w: Word): Word {
    Column(SBox(At0(w)), SBox(At1(w)), SBox(At2(w)), SBox(At3(w)))
  }

  function RotWord(w: Word): Word {
    Column(At1(w), At2(w), At3(w), At0(w))
  }

  function SubBytes(s: State): State {
    State(SubWord(s.c0), SubWord(s.c1), SubWord(s.c2), SubWord(s.c3))
  }

  /** Row r moves r columns to the left. */
  function ShiftRows(s: State): State {
    State(Column(At0(s.c0), At1(s.c1), At2(s.c2), At3(s.c3)), Column(At0(s.c1), At1(s.c2), At2(s.c3), At3(s.c0)),
          Column(At0(s.c2), At1(s.c3), At2(s.c0), At3(s.c1)), Column(At0(s.c3), At1(s.c0), At2(s.c1), At3(s.c2)))
  }

  function Twice(a: Word): Word { XTime(a) }

  function Thrice(a: Word): Word { Xor(XTime(a), a) }

  function Sum4(a: Word, b: Word, c: Word, d: Word): Word { Xor(Xor(Xor(a, b), c), d) }

  function MixColumn(w: Word): Word {
    var a, b, c, d := At0(w), At1(w), At2(w), At3(w);
    Column(Sum4(Twice(a), Thrice(b), c, d), Sum4(a, Twice(b), Thrice(c), d),
           Sum4(a, b, Twice(c), Thrice(d)), Sum4(Thrice(a), b, c, Twice(d)))
  }

  function MixColumns(s: State): State {
    State(MixColumn(s.c0), MixColumn(s.c1), MixColumn(s.c2), MixColumn(s.c3))
  }

  function AddRoundKey(s: State, k: State): State {
    State(Xor(s.c0, k.c0), Xor(s.c1, k.c1), Xor(s.c2, k.c2), Xor(s.c3, k.c3))
  }

  /** x^(i-1) in the highest byte. */
  function Rcon(i: nat): Word
    requires i > 0
  {
    RconByte(i) << 24
  }

  function RconByte(i: nat): Word
    requires i > 0
  {
    if i == 1 then 1 else XTime(RconByte(i - 1))
  }

  /** The i-th word of the expanded key. */
  function ExpandedKey(key: State, i: nat): Word {
    hide SubWord, RotWord;
    if i == 0 then key.c0
    else if i == 1 then key.c1
    else if i == 2 then key.c2
    else if i == 3 then key.c3
    else if i % 4 == 0 then Xor(ExpandedKey(key, i - 4), Xor(SubWord(RotWord(ExpandedKey(key, i - 1))), Rcon(i / 4)))
    else Xor(ExpandedKey(key, i - 4), ExpandedKey(key, i - 1))
  }

  function RoundKey(key: State, round: nat): State {
    State(ExpandedKey(key, 4 * round), ExpandedKey(key, 4 * round + 1), ExpandedKey(key, 4 * round + 2),
      ExpandedKey(key, 4 * round + 3))
  }

  /** The state after the first key and so many full rounds. */
  function Rounds(key: State, input: State, rounds: nat): State {
    if rounds == 0 then AddRoundKey(input, RoundKey(key, 0))
    else AddRoundKey(MixColumns(ShiftRows(SubBytes(Rounds(key, input, rounds - 1)))), RoundKey(key, rounds))
  }

  function Cipher(key: State, input: State): State {
    AddRoundKey(ShiftRows(SubBytes(Rounds(key, input, 9))), RoundKey(key, 10))
  }

  // ------ tables for the round

  lemma SBoxByte(a: Word)
    ensures SBox(a) < 0x100
  {
    hide Inverse;
  }

  /** The column sum of table words. */
  lemma MixedByTables(a: Word, b: Word, c: Word, d: Word)
    requires a < 0x100 && b < 0x100 && c < 0x100 && d < 0x100
    ensures MixColumn(Column(a, b, c, d)) == Sum4(RowOf(a).t0, RowOf(b).t1, RowOf(c).t2, RowOf(d).t3)
  {
    hide XTime, At0, At1, At2, At3, Xor, Column;
    ColumnBytes(a, b, c, d);
    var a2, b2, c2, d2 := XTime(a), XTime(b), XTime(c), XTime(d);
    var a3, b3, c3, d3 := Xor(a2, a), Xor(b2, b), Xor(c2, c), Xor(d2, d);
    ColumnSum(a2, a, a, a3, b3, b2, b, b);
    ColumnSum(Xor(a2, b3), Xor(a, b2), Xor(a, b), Xor(a3, b), c, c3, c2, c);
    ColumnSum(Xor(Xor(a2, b3), c), Xor(Xor(a, b2), c3), Xor(Xor(a, b), c2), Xor(Xor(a3, b), c), d, d, d3, d2);
  }

  lemma SubbedBytes(w: Word)
    ensures At0(SubWord(w)) == SBox(At0(w)) && At1(SubWord(w)) == SBox(At1(w))
    ensures At2(SubWord(w)) == SBox(At2(w)) && At3(SubWord(w)) == SBox(At3(w))
  {
    hide SBox, At0, At1, At2, At3, Column;
    SBoxByte(At0(w));
    SBoxByte(At1(w));
    SBoxByte(At2(w));
    SBoxByte(At3(w));
    ColumnBytes(SBox(At0(w)), SBox(At1(w)), SBox(At2(w)), SBox(At3(w)));
  }

  lemma SumOrder(x: Word, a: Word, b: Word, c: Word, d: Word)
    ensures Xor(Xor(Xor(Xor(x, a), b), c), d) == Xor(Sum4(a, b, c, d), x)
    ensures Sum4(a, b, c, d) == Sum4(b, c, d, a) == Sum4(c, d, a, b) == Sum4(d, a, b, c) == Sum4(d, c, b, a)
  {
    hide Xor;
    XorOrder(x, a, b);
    XorOrder(x, Xor(a, b), c);
    XorOrder(x, Xor(Xor(a, b), c), d);
    XorOrder(x, Sum4(a, b, c, d), d);
    XorOrder(a, b, c);
    XorOrder(a, Xor(b, c), d);
    XorOrder(a, Xor(Xor(b, c), d), d);
    XorOrder(b, c, d);
    XorOrder(b, Xor(c, d), a);
    XorOrder(b, Xor(Xor(c, d), a), a);
    XorOrder(c, d, a);
    XorOrder(c, Xor(d, a), b);
    XorOrder(c, Xor(Xor(d, a), b), b);
    XorOrder(d, c, b);
    XorOrder(Xor(c, d), b, a);
    XorOrder(b, a, c);
    XorOrder(Xor(c, d), a, b);
  }

  /** The four words looked up for one column of a full round. */
  lemma FullColumn(w0: Word, w1: Word, w2: Word, w3: Word)
    ensures MixColumn(Column(At0(SubWord(w0)), At1(SubWord(w1)), At2(SubWord(w2)), At3(SubWord(w3))))
         == Sum4(RowOf(SBox(At0(w0))).t0, RowOf(SBox(At1(w1))).t1, RowOf(SBox(At2(w2))).t2, RowOf(SBox(At3(w3))).t3)
  {
    hide SBox, At0, At1, At2, At3, Column, SubWord, MixColumn, RowOf, Sum4;
    SubbedBytes(w0);
    SubbedBytes(w1);
    SubbedBytes(w2);
    SubbedBytes(w3);
    SBoxByte(At0(w0));
    SBoxByte(At1(w1));
    SBoxByte(At2(w2));
    SBoxByte(At3(w3));
    MixedByTables(SBox(At0(w0)), SBox(At1(w1)), SBox(At2(w2)), SBox(At3(w3)));
  }

  /** A full round under the round key x. */
  method FullRound(x0: Word, x1: Word, x2: Word, x3: Word, y0: Word, y1: Word, y2: Word, y3: Word)
    returns (y0': Word, y1': Word, y2': Word, y3': Word)
    ensures State(y0', y1', y2', y3')
         == AddRoundKey(MixColumns(ShiftRows(SubBytes(State(y0, y1, y2, y3)))), State(x0, x1, x2, x3))
  {
    hide SBox, At0, At1, At2, At3, Column, SubWord, MixColumn, RowOf, Sum4, Xor, Offset0, Offset1, Offset2, Offset3,
      IsOffset, Number, TableAt;
    Offsets(y0);
    Offsets(y1);
    Offsets(y2);
    Offsets(y3);
    FullColumn(y0, y1, y2, y3);
    FullColumn(y1, y2, y3, y0);
    FullColumn(y2, y3, y0, y1);
    FullColumn(y3, y0, y1, y2);
    var p00, p01, p02, p03 :=
      TableAt(Offset0(y0)).t0, TableAt(Offset1(y0)).t1, TableAt(Offset2(y0)).t2, TableAt(Offset3(y0)).t3;
    var z0, z3, z2, z1 := Xor(x0, p00), Xor(x3, p01), Xor(x2, p02), Xor(x1, p03);
    var p10, p11, p12, p13 :=
      TableAt(Offset0(y1)).t0, TableAt(Offset1(y1)).t1, TableAt(Offset2(y1)).t2, TableAt(Offset3(y1)).t3;
    z1, z0, z3, z2 := Xor(z1, p10), Xor(z0, p11), Xor(z3, p12), Xor(z2, p13);
    var p20, p21, p22, p23 :=
      TableAt(Offset0(y2)).t0, TableAt(Offset1(y2)).t1, TableAt(Offset2(y2)).t2, TableAt(Offset3(y2)).t3;
    z2, z1, z0, z3 := Xor(z2, p20), Xor(z1, p21), Xor(z0, p22), Xor(z3, p23);
    var p30, p31, p32, p33 :=
      TableAt(Offset0(y3)).t0, TableAt(Offset1(y3)).t1, TableAt(Offset2(y3)).t2, TableAt(Offset3(y3)).t3;
    y2', y1', y0', y3' := Xor(z2, p31), Xor(z1, p32), Xor(z0, p33), Xor(z3, p30);
    SumOrder(x0, p00, p11, p22, p33);
    SumOrder(x1, p03, p10, p21, p32);
    SumOrder(x2, p02, p13, p20, p31);
    SumOrder(x3, p01, p12, p23, p30);
  }

  // ------ masked table words: one S-box byte in its place

  function Mask3(w: Word): Word { w & 0xff000000 }

  function Mask2(w: Word): Word { w & 0xff0000 }

  function Mask1(w: Word): Word { w & 0xff00 }

  function Mask0(w: Word): Word { w & 0xff }

  lemma MaskedHigh(s: Word)
    requires s < 0x100
    ensures Mask3(RowOf(s).t2) == Shift24(s) && Mask2(RowOf(s).t3) == Shift16(s)
  {
  }

  lemma MaskedLow(s: Word)
    requires s < 0x100
    ensures Mask1(RowOf(s).t0) == Shift8(s) && Mask0(RowOf(s).t1) == s
  {
  }

  /** The masked words for an offset. */
  lemma MaskedAt(offset: Word, b: Word)
    requires IsOffset(offset) && Number(offset) == b
    ensures Mask3(TableAt(offset).t2) == Shift24(SBox(b)) && Mask2(TableAt(offset).t3) == Shift16(SBox(b))
    ensures Mask1(TableAt(offset).t0) == Shift8(SBox(b)) && Mask0(TableAt(offset).t1) == SBox(b)
  {
    hide SBox, RowOf, TableAt, Shift24, Shift16, Shift8, IsOffset, Number, Mask0, Mask1, Mask2, Mask3;
    SBoxByte(b);
    MaskedHigh(SBox(b));
    MaskedLow(SBox(b));
  }

  lemma MaskedBytes(w: Word)
    ensures IsOffset(Offset0(w)) && IsOffset(Offset1(w)) && IsOffset(Offset2(w)) && IsOffset(Offset3(w))
    ensures var o := Offset0(w); var s := SBox(At0(w));
      Mask3(TableAt(o).t2) == Shift24(s) && Mask2(TableAt(o).t3) == Shift16(s) && Mask1(TableAt(o).t0) == Shift8(s)
      && Mask0(TableAt(o).t1) == s
    ensures var o := Offset1(w); var s := SBox(At1(w));
      Mask3(TableAt(o).t2) == Shift24(s) && Mask2(TableAt(o).t3) == Shift16(s) && Mask1(TableAt(o).t0) == Shift8(s)
      && Mask0(TableAt(o).t1) == s
    ensures var o := Offset2(w); var s := SBox(At2(w));
      Mask3(TableAt(o).t2) == Shift24(s) && Mask2(TableAt(o).t3) == Shift16(s) && Mask1(TableAt(o).t0) == Shift8(s)
      && Mask0(TableAt(o).t1) == s
    ensures var o := Offset3(w); var s := SBox(At3(w));
      Mask3(TableAt(o).t2) == Shift24(s) && Mask2(TableAt(o).t3) == Shift16(s) && Mask1(TableAt(o).t0) == Shift8(s)
      && Mask0(TableAt(o).t1) == s
  {
    hide SBox, TableAt, Shift24, Shift16, Shift8, IsOffset, Number, Offset0, Offset1, Offset2, Offset3, At0, At1, At2,
      At3, Mask0, Mask1, Mask2, Mask3;
    Offsets(w);
    MaskedAt(Offset0(w), At0(w));
    MaskedAt(Offset1(w), At1(w));
    MaskedAt(Offset2(w), At2(w));
    MaskedAt(Offset3(w), At3(w));
  }

  /** The last round, without mixing columns. */
  method LastRound(x0: Word, x1: Word, x2: Word, x3: Word, y0: Word, y1: Word, y2: Word, y3: Word)
    returns (y0': Word, y1': Word, y2': Word, y3': Word)
    ensures State(y0', y1', y2', y3') == AddRoundKey(ShiftRows(SubBytes(State(y0, y1, y2, y3))), State(x0, x1, x2, x3))
  {
    hide SBox, At0, At1, At2, At3, SubWord, RowOf, Xor, Offset0, Offset1, Offset2, Offset3, IsOffset, Number, TableAt,
      Shift24, Shift16, Shift8, Mask0, Mask1, Mask2, Mask3;
    MaskedBytes(y0);
    MaskedBytes(y1);
    MaskedBytes(y2);
    MaskedBytes(y3);
    SubbedBytes(y0);
    SubbedBytes(y1);
    SubbedBytes(y2);
    SubbedBytes(y3);
    var p00, p01, p02, p03 :=
      Mask3(TableAt(Offset0(y0)).t2), Mask2(TableAt(Offset1(y0)).t3), Mask1(TableAt(Offset2(y0)).t0),
        Mask0(TableAt(Offset3(y0)).t1);
    var z0, z3, z2, z1 := Xor(x0, p00), Xor(x3, p01), Xor(x2, p02), Xor(x1, p03);
    var p10, p11, p12, p13 :=
      Mask3(TableAt(Offset0(y1)).t2), Mask2(TableAt(Offset1(y1)).t3), Mask1(TableAt(Offset2(y1)).t0),
        Mask0(TableAt(Offset3(y1)).t1);
    z1, z0, z3, z2 := Xor(z1, p10), Xor(z0, p11), Xor(z3, p12), Xor(z2, p13);
    var p20, p21, p22, p23 :=
      Mask3(TableAt(Offset0(y2)).t2), Mask2(TableAt(Offset1(y2)).t3), Mask1(TableAt(Offset2(y2)).t0),
        Mask0(TableAt(Offset3(y2)).t1);
    z3, z2, z1, z0 := Xor(z3, p23), Xor(z2, p20), Xor(z1, p21), Xor(z0, p22);
    var p30, p31, p32, p33 :=
      Mask3(TableAt(Offset0(y3)).t2), Mask2(TableAt(Offset1(y3)).t3), Mask1(TableAt(Offset2(y3)).t0),
        Mask0(TableAt(Offset3(y3)).t1);
    y3', y2', y1', y0' := Xor(z3, p30), Xor(z2, p31), Xor(z1, p32), Xor(z0, p33);
    SumOrder(x0, p00, p11, p22, p33);
    SumOrder(x1, p03, p10, p21, p32);
    SumOrder(x2, p02, p13, p20, p31);
    SumOrder(x3, p01, p12, p23, p30);
  }

  // ------ the key schedule

  const RCON: seq<Word> :=
    [0x01000000, 0x02000000, 0x04000000, 0x08000000, 0x10000000, 0x20000000, 0x40000000, 0x80000000, 0x1b000000,
      0x36000000]

  lemma RconKnown(i: nat)
    requires i < 10
    ensures |RCON| == 10 && RCON[i] == Rcon(i + 1)
  {
    assert RconByte(2) == 2 && RconByte(3) == 4 && RconByte(4) == 8;
    assert RconByte(5) == 0x10 && RconByte(6) == 0x20 && RconByte(7) == 0x40;
    assert RconByte(8) == 0x80 && RconByte(9) == 0x1b && RconByte(10) == 0x36;
  }

  /** What the first word of the next round key adds, without the last S-box byte, and that
      byte. */
  method KeySum(x3: Word, i: nat) returns (e: Word, q3: Word)
    requires i < 10
    ensures Xor(e, q3) == Xor(SubWord(RotWord(x3)), Rcon(i + 1))
  {
    hide SBox, At0, At1, At2, At3, RowOf, Xor, Offset0, Offset1, Offset2, Offset3, IsOffset, Number, TableAt, Shift24,
      Shift16, Shift8, Mask0, Mask1, Mask2, Mask3, Rcon, RCON;
    RconKnown(i);
    MaskedBytes(x3);
    RotatedBytes(x3);
    var q0, q1, q2 := Mask3(TableAt(Offset1(x3)).t2), Mask2(TableAt(Offset2(x3)).t3), Mask1(TableAt(Offset3(x3)).t0);
    q3 := Mask0(TableAt(Offset0(x3)).t1);
    e := Xor(q0, RCON[i]);
    e := Xor(e, q1);
    e := Xor(e, q2);
    XorOrder(q0, RCON[i], q0);
    SumOrder(RCON[i], q0, q1, q2, q3);
  }

  lemma RotatedBytes(w: Word)
    ensures SubWord(RotWord(w)) == Column(SBox(At1(w)), SBox(At2(w)), SBox(At3(w)), SBox(At0(w)))
  {
    hide SBox, Column;
    BytesSmall(w);
    ColumnBytes(At1(w), At2(w), At3(w), At0(w));
  }

  lemma BytesSmall(w: Word)
    ensures At0(w) < 0x100 && At1(w) < 0x100 && At2(w) < 0x100 && At3(w) < 0x100
  {
  }

  /** One round key makes the next. */
  lemma NextKey(key: State, i: nat, e: Word)
    requires e == Xor(SubWord(RotWord(RoundKey(key, i).c3)), Rcon(i + 1))
    ensures var x := RoundKey(key, i); var x' := RoundKey(key, i + 1);
      x'.c0 == Xor(x.c0, e) && x'.c1 == Xor(x.c1, x'.c0) && x'.c2 == Xor(x.c2, x'.c1) && x'.c3 == Xor(x.c3, x'.c2)
  {
    hide Xor, SubWord, RotWord, Rcon;
    assert (4 * (i + 1)) % 4 == 0 && (4 * (i + 1)) / 4 == i + 1;
    assert (4 * (i + 1) + 1) % 4 == 1 && (4 * (i + 1) + 2) % 4 == 2 && (4 * (i + 1) + 3) % 4 == 3;
  }

  // ------ the whole

  function Load(a: array<Byte>, i: nat): Word
    requires i + 4 <= a.Length
    reads a
  {
    Column(Wide(a[i]), Wide(a[i + 1]), Wide(a[i + 2]), Wide(a[i + 3]))
  }

  /** Sixteen bytes, column by column. */
  function LoadState(a: array<Byte>): State
    requires a.Length == 16
    reads a
  {
    State(Load(a, 0), Load(a, 4), Load(a, 8), Load(a, 12))
  }

  function Wide(b: Byte): Word { b as Word }

  function Low(w: Word): Byte { (w & 0xff) as Byte }

  lemma LoadedBytes(w: Word)
    ensures Column(Wide(Low(At0(w))), Wide(Low(At1(w))), Wide(Low(At2(w))), Wide(Low(At3(w)))) == w
  {
  }

  method StoreColumn(out: array<Byte>, i: nat, y: Word)
    requires i + 4 <= out.Length
    modifies out
    ensures Load(out, i) == y
    ensures forall j: nat :: j + 4 <= out.Length && (j + 4 <= i || i + 4 <= j) ==> Load(out, j) == old(Load(out, j))
  {
    hide Column, Low, Wide, At0, At1, At2, At3;
    LoadedBytes(y);
    out[i + 3], out[i + 2], out[i + 1], out[i] := Low(At3(y)), Low(At2(y)), Low(At1(y)), Low(At0(y));
  }

  /** The AES of the block n under the key k; out may be either of them. */
  method AesBig(out: array<Byte>, k: array<Byte>, n: array<Byte>)
    requires out.Length == k.Length == n.Length == 16
    modifies out
    ensures LoadState(out) == Cipher(old(LoadState(k)), old(LoadState(n)))
  {
    hide SubWord, RotWord, Rcon, Xor, Column, Load, ExpandedKey, SubBytes, ShiftRows, MixColumns;
    ghost var key, input := LoadState(k), LoadState(n);
    var x0, x1, x2, x3 := Load(k, 0), Load(k, 4), Load(k, 8), Load(k, 12);
    FirstKey(key);
    var e, q3 := KeySum(x3, 0);
    var y0, y1, y2, y3 := Xor(x0, Load(n, 0)), Xor(x1, Load(n, 4)), Xor(x2, Load(n, 8)), Xor(x3, Load(n, 12));
    FirstState(key, input);
    var i := 0;
    while i < 9
      invariant 0 <= i <= 9 && State(x0, x1, x2, x3) == RoundKey(key, i)
      invariant State(y0, y1, y2, y3) == Rounds(key, input, i)
      invariant Xor(e, q3) == Xor(SubWord(RotWord(x3)), Rcon(i + 1))
      invariant LoadState(out) == old(LoadState(out))
    {
      e := Xor(e, q3);
      NextKey(key, i, e);
      x0 := Xor(x0, e);
      x1 := Xor(x1, x0);
      x2 := Xor(x2, x1);
      x3 := Xor(x3, x2);
      y0, y1, y2, y3 := FullRound(x0, x1, x2, x3, y0, y1, y2, y3);
      e, q3 := KeySum(x3, i + 1);
      i := i + 1;
    }
    e := Xor(e, q3);
    NextKey(key, 9, e);
    x0 := Xor(x0, e);
    x1 := Xor(x1, x0);
    x2 := Xor(x2, x1);
    x3 := Xor(x3, x2);
    y0, y1, y2, y3 := LastRound(x0, x1, x2, x3, y0, y1, y2, y3);
    StoreState(out, y0, y1, y2, y3);
  }

  method StoreState(out: array<Byte>, y0: Word, y1: Word, y2: Word, y3: Word)
    requires out.Length == 16
    modifies out
    ensures LoadState(out) == State(y0, y1, y2, y3)
  {
    hide Load, Column;
    StoreColumn(out, 0, y0);
    StoreColumn(out, 4, y1);
    StoreColumn(out, 8, y2);
    StoreColumn(out, 12, y3);
  }

  lemma FirstKey(key: State)
    ensures RoundKey(key, 0) == key
  {
  }

  lemma FirstState(key: State, input: State)
    ensures Rounds(key, input, 0)
      == State(Xor(key.c0, input.c0), Xor(key.c1, input.c1), Xor(key.c2, input.c2), Xor(key.c3, input.c3))
  {
    hide Xor;
    FirstKey(key);
    XorOrder(key.c0, input.c0, key.c0);
    XorOrder(key.c1, input.c1, key.c0);
    XorOrder(key.c2, input.c2, key.c0);
    XorOrder(key.c3, input.c3, key.c0);
  }
}
