/** cusp_icmp_send and cusp_icmp_recv: headers written, repaired and checked inside one byte
    buffer, on a little-endian machine. */
module IcmpPacket {
  import opened OnesComplement
  import opened IcmpSpec

  // ------ words in memory

  /** A stored word, as the machine reads it. */
  function Load16(p: array<Byte>, o: nat): Word
    requires o + 2 <= p.Length
    reads p
  {
    Pair(p[o + 1], p[o])
  }

  method Store16(p: array<Byte>, o: nat, v: Word)
    requires o + 2 <= p.Length
    modifies p
    ensures p[o] == v % 256 && p[o + 1] == v / 256
    ensures forall i :: 0 <= i < p.Length && !(o <= i < o + 2) ==> p[i] == old(p[i])
  {
    p[o], p[o + 1] := v % 256, v / 256;
  }

  /** Conversion to network order; only sixteen bits count. */
  function Htons(v: int): Word {
    Swap(v % 65536)
  }

  /** Two bytes differ from two others exactly if their words do, in either order. */
  lemma SwapOneToOne(a: Word, b: Word)
    ensures a == b <==> Swap(a) == Swap(b)
  {
    hide Swap;
    SwapNumber(a);
    SwapNumber(b);
  }

  method StoreNet16(p: array<Byte>, o: nat, v: int)
    requires o + 2 <= p.Length
    modifies p
    ensures p[o..o + 2] == Big16(v)
    ensures forall i :: 0 <= i < p.Length && !(o <= i < o + 2) ==> p[i] == old(p[i])
  {
    SwapBytes(v);
    Store16(p, o, Htons(v));
  }

  lemma SwapBytes(v: int)
    ensures [Htons(v) % 256, Htons(v) / 256] == Big16(v)
  {
    var w := v % 65536;
    PairIs(w % 256, w / 256);
    assert v == 256 * (256 * (v / 65536) + w / 256) + w % 256;
    Arith.Division(v, 256 * (v / 65536) + w / 256, w % 256, 256);
    Arith.Division(v / 256, v / 65536, w / 256, 256);
  }

  method Clear16(p: array<Byte>, o: nat)
    requires o + 2 <= p.Length
    modifies p
    ensures p[o] == 0 && p[o + 1] == 0
    ensures forall i :: 0 <= i < p.Length && !(o <= i < o + 2) ==> p[i] == old(p[i])
  {
    Store16(p, o, 0);
  }

  method StoreNet32(p: array<Byte>, o: nat, v: Address)
    requires o + 4 <= p.Length
    modifies p
    ensures p[o..o + 4] == Big32(v)
    ensures forall i :: 0 <= i < p.Length && !(o <= i < o + 4) ==> p[i] == old(p[i])
  {
    StoreNet16(p, o, v / 65536);
    StoreNet16(p, o + 2, v % 65536);
    assert p[o..o + 4] == p[o..o + 2] + p[o + 2..o + 4];
  }

  /** x = csum(...), for a field x; bytes of an odd number are followed by a zero. */
  method StoreSum(p: array<Byte>, field: nat, o: nat, size: nat)
    requires o + size + size % 2 <= p.Length && field + 2 <= p.Length
    requires size % 2 == 1 ==> p[o + size] == 0
    modifies p
    ensures size <= 0x2_0000 ==> p[field..field + 2] == Big16(Check(old(p[o..o + size])))
    ensures forall i :: 0 <= i < p.Length && !(field <= i < field + 2) ==> p[i] == old(p[i])
  {
    hide Check, Folds, Swap, Htons, Big16;
    var nwords := (size + 1) / 2;
    assert 2 * nwords == size + size % 2;
    var check := Csum(p, o, nwords);
    if nwords <= 65536 { FoldedSum(p[o..o + 2 * nwords]); }
    if size % 2 == 1 {
      assert p[o..o + size + 1] == p[o..o + size] + [0];
      PaddedCheck(p[o..o + size]);
    }
    ghost var sum := Check(p[o..o + size]);
    CheckBytes(sum);
    assert size <= 0x2_0000 ==> nwords <= 65536 && check == Swap(sum);
    Store16(p, field, check);
    assert size <= 0x2_0000 ==> p[field..field + 2] == [Swap(sum) % 256, Swap(sum) / 256];
  }

  lemma CheckBytes(c: Word)
    ensures [Swap(c) % 256, Swap(c) / 256] == Big16(c)
  {
    hide Swap, Big16;
    SwapBytes(c);
  }

  // ------ sending

  method WriteIpStart(p: array<Byte>, o: nat, length: int, ttl: Byte, protocol: Byte)
    requires o + 20 <= p.Length
    modifies p
    ensures p[o..o + 12] == [0x45, 0] + Big16(length) + [0, 0, 0, 0, ttl, protocol, 0, 0]
    ensures forall i :: 0 <= i < p.Length && !(o <= i < o + 12) ==> p[i] == old(p[i])
  {
    hide Big16;
    p[o] := 0x45;
    p[o + 1] := 0;
    StoreNet16(p, o + 2, length);
    assert p[o + 2..o + 4][0] == p[o + 2] && p[o + 2..o + 4][1] == p[o + 3];
    Clear16(p, o + 4);
    Clear16(p, o + 6);
    p[o + 8] := ttl;
    p[o + 9] := protocol;
    Clear16(p, o + 10);
    TwelveBytes(p[o..o + 12], Big16(length), ttl, protocol);
  }

  lemma TwelveBytes(s: seq<Byte>, word: seq<Byte>, ttl: Byte, protocol: Byte)
    requires |s| == 12 && |word| == 2 && s[2] == word[0] && s[3] == word[1]
    requires s[0] == 0x45 && s[1] == 0 && s[4] == 0 && s[5] == 0 && s[6] == 0 && s[7] == 0
    requires s[8] == ttl && s[9] == protocol && s[10] == 0 && s[11] == 0
    ensures s == [0x45, 0] + word + [0, 0, 0, 0, ttl, protocol, 0, 0]
  {
  }

  method WriteBareIp(p: array<Byte>, o: nat, length: int, ttl: Byte, protocol: Byte, source: Address, dest: Address)
    requires o + 20 <= p.Length
    modifies p
    ensures p[o..o + 20] == IpHeader(length, ttl, protocol, 0, source, dest)
    ensures forall i :: 0 <= i < p.Length && !(o <= i < o + 20) ==> p[i] == old(p[i])
  {
    hide Big32, Big16, IpHeader;
    WriteIpStart(p, o, length, ttl, protocol);
    StoreNet32(p, o + 12, source);
    StoreNet32(p, o + 16, dest);
    BareHeader(length, ttl, protocol, source, dest);
    assert p[o..o + 20] == p[o..o + 12] + p[o + 12..o + 16] + p[o + 16..o + 20];
  }

  lemma BareHeader(length: int, ttl: Byte, protocol: Byte, source: Address, dest: Address)
    ensures IpHeader(length, ttl, protocol, 0, source, dest)
         == [0x45, 0] + Big16(length) + [0, 0, 0, 0, ttl, protocol, 0, 0] + Big32(source) + Big32(dest)
  {
    hide Big32;
    assert Big16(0) == [0, 0];
    hide Big16;
    assert [0, 0, 0, 0, ttl, protocol] + [0, 0] == [0, 0, 0, 0, ttl, protocol, 0, 0];
  }

  method WriteIp(p: array<Byte>, o: nat, length: int, ttl: Byte, protocol: Byte, source: Address, dest: Address)
    requires o + 20 <= p.Length
    modifies p
    ensures p[o..o + 20] == SealedIp(length, ttl, protocol, source, dest)
    ensures forall i :: 0 <= i < p.Length && !(o <= i < o + 20) ==> p[i] == old(p[i])
  {
    hide Check, Big16, Big32;
    WriteBareIp(p, o, length, ttl, protocol, source, dest);
    StoreSum(p, o + 10, o, 20);
    ghost var s := p[o..o + 20];
    assert s[10] == p[o + 10] && s[11] == p[o + 11];
    assert s[10..12] == [s[10], s[11]] == p[o + 10..o + 12];
    WithCheck(p[o..o + 20], length, ttl, protocol, source, dest);
  }

  lemma WithCheck(s: seq<Byte>, length: int, ttl: Byte, protocol: Byte, source: Address, dest: Address)
    requires |s| == 20
    requires var bare := IpHeader(length, ttl, protocol, 0, source, dest);
      s[..10] == bare[..10] && s[10..12] == Big16(Check(bare)) && s[12..] == bare[12..]
    ensures s == SealedIp(length, ttl, protocol, source, dest)
  {
    hide Check, Big16, Big32;
    assert s == s[..10] + s[10..12] + s[12..];
  }

  /** The payload at 56, and a zero to make its length even. */
  method WritePayload(p: array<Byte>, data: array<Byte>, n: nat)
    requires 56 + n + n % 2 <= p.Length && n <= data.Length && data != p
    modifies p
    ensures p[56..56 + n] == data[..n] && (n % 2 == 1 ==> p[56 + n] == 0)
    ensures forall i :: 56 + n + n % 2 <= i < p.Length ==> p[i] == old(p[i])
  {
    p[56 + n + n % 2 - 1] := 0;
    var k := 0;
    while k < n
      invariant 0 <= k <= n
      invariant p[56..56 + k] == data[..k] && (n % 2 == 1 ==> p[56 + n] == 0)
      invariant forall i :: 56 + n + n % 2 <= i < p.Length ==> p[i] == old(p[i])
    {
      p[56 + k] := data[k];
      k := k + 1;
    }
  }

  method WriteBareUdp(p: array<Byte>, sourcePort: int, destPort: int, length: int)
    requires 56 <= p.Length
    modifies p
    ensures p[48..56] == UdpHeader(sourcePort, destPort, length, 0)
    ensures forall i :: 0 <= i < p.Length && !(48 <= i < 56) ==> p[i] == old(p[i])
  {
    hide Big16, UdpHeader;
    StoreNet16(p, 48, sourcePort);
    StoreNet16(p, 50, destPort);
    StoreNet16(p, 52, length);
    Clear16(p, 54);
    BareUdp(sourcePort, destPort, length);
    assert p[48..56] == p[48..50] + p[50..52] + p[52..54] + [p[54], p[55]];
  }

  lemma BareUdp(sourcePort: int, destPort: int, length: int)
    ensures UdpHeader(sourcePort, destPort, length, 0) == Big16(sourcePort) + Big16(destPort) + Big16(length) + [0, 0]
  {
    assert Big16(0) == [0, 0];
    hide Big16;
  }

  lemma UdpWithCheck(sourcePort: int, destPort: int, length: int, check: Word)
    ensures var bare := UdpHeader(sourcePort, destPort, length, 0);
      UdpHeader(sourcePort, destPort, length, check) == bare[..6] + Big16(check) + bare[8..]
  {
    hide Big16;
  }

  method WritePseudo(p: array<Byte>, from: Address, to: Address, length: int)
    requires 48 <= p.Length
    modifies p
    ensures p[36..48] == PseudoHeader(from, to, length)
    ensures forall i :: 0 <= i < p.Length && !(36 <= i < 48) ==> p[i] == old(p[i])
  {
    hide Big16, Big32;
    StoreNet32(p, 36, from);
    StoreNet32(p, 40, to);
    p[44] := 0;
    p[45] := 17;
    StoreNet16(p, 46, length);
    assert p[36..48] == p[36..40] + p[40..44] + [p[44], p[45]] + p[46..48];
  }

  /** The UDP header at 48, with a pseudo header just before it for a while. */
  method WriteUdp(p: array<Byte>, n: nat, from: Address, fromPort: int, to: Address, toPort: int)
    requires 56 + n + n % 2 <= p.Length && (n % 2 == 1 ==> p[56 + n] == 0)
    modifies p
    ensures n < 65536 ==> p[48..56 + n] == Udp(from, fromPort, to, toPort, old(p[56..56 + n]))
    ensures forall i :: 56 <= i < p.Length ==> p[i] == old(p[i])
  {
    hide Check, Big16, PseudoHeader, UdpHeader;
    ghost var data := p[56..56 + n];
    WritePseudo(p, from, to, n + 8);
    ghost var pseudo := p[36..48];
    WriteBareUdp(p, fromPort, toPort, n + 8);
    ghost var bare := p[48..56];
    assert p[36..48] == pseudo && p[56..56 + n] == data;
    assert p[36..56 + n] == pseudo + bare + data;
    StoreSum(p, 54, 36, 20 + n);
    assert p[56..56 + n] == data;
    if n < 65536 {
      assert p[54] == p[54..56][0] && p[55] == p[54..56][1];
      Patched(p[48..56 + n], bare, 6, Big16(Check(pseudo + bare + data)), data);
      UdpWithCheck(fromPort, toPort, n + 8, Check(pseudo + bare + data));
    }
  }

  /** A header with a word changed, and what follows it. */
  lemma Patched(s: seq<Byte>, bare: seq<Byte>, field: nat, word: seq<Byte>, rest: seq<Byte>)
    requires field + 2 <= |bare| && |s| == |bare| + |rest| && |word| == 2
    requires forall i :: 0 <= i < |bare| && !(field <= i < field + 2) ==> s[i] == bare[i]
    requires s[field] == word[0] && s[field + 1] == word[1]
    requires s[|bare|..] == rest
    ensures s == bare[..field] + word + bare[field + 2..] + rest
  {
    assert s == s[..field] + s[field..field + 2] + s[field + 2..|bare|] + s[|bare|..];
    assert s[..field] == bare[..field] && s[field + 2..|bare|] == bare[field + 2..];
  }

  /** The ICMP header at 20; n bytes of what it is about follow it. */
  method WriteIcmp(p: array<Byte>, n: nat, code: Word)
    requires 28 + n + n % 2 <= p.Length && (n % 2 == 1 ==> p[28 + n] == 0)
    modifies p
    ensures n < 0x1_0000 ==> p[20..28 + n] == Icmp(code, old(p[28..28 + n]))
    ensures forall i :: 0 <= i < p.Length && !(20 <= i < 28) ==> p[i] == old(p[i])
  {
    hide Check, Big16, IcmpHeader;
    ghost var about := p[28..28 + n];
    WriteBareIcmp(p, code);
    ghost var bare := p[20..28];
    assert p[28..28 + n] == about;
    assert p[20..28 + n] == bare + about;
    StoreSum(p, 22, 20, 8 + n);
    assert p[28..28 + n] == about;
    if n < 0x1_0000 {
      assert p[22] == p[22..24][0] && p[23] == p[22..24][1];
      Patched(p[20..28 + n], bare, 2, Big16(Check(bare + about)), about);
      IcmpWithCheck(code, Check(bare + about));
    }
  }

  method WriteBareIcmp(p: array<Byte>, code: Word)
    requires 28 <= p.Length
    modifies p
    ensures p[20..28] == IcmpHeader(code, 0)
    ensures forall i :: 0 <= i < p.Length && !(20 <= i < 28) ==> p[i] == old(p[i])
  {
    assert Big16(0) == [0, 0];
    hide Big16;
    StoreNet16(p, 20, code);
    Clear16(p, 22);
    Clear16(p, 24);
    Clear16(p, 26);
    assert p[20..28] == p[20..22] + [p[22], p[23]] + [p[24], p[25], p[26], p[27]];
  }

  lemma IcmpWithCheck(code: Word, check: Word)
    ensures var bare := IcmpHeader(code, 0);
      IcmpHeader(code, check) == bare[..2] + Big16(check) + bare[4..]
  {
    hide Big16;
  }

  lemma SameSlice(s: seq<Byte>, t: seq<Byte>, from: nat, to: nat)
    requires from <= to <= |s| == |t| && forall i :: from <= i < to ==> s[i] == t[i]
    ensures s[from..to] == t[from..to]
  {
  }

  /** Fails exactly when the buffer is too short for the packet, its payload padded to whole
      words; otherwise the packet is in the buffer's first bytes, as long as IP can say how
      long it is. */
  method Send(p: array<Byte>, size: int, data: array<Byte>, n: nat, from: Address, fromPort: int, to: Address,
              toPort: int, reporter: Address, code: Word)
    returns (r: int, length: int)
    requires size <= p.Length && n <= data.Length && data != p
    modifies p
    ensures 56 + n + n % 2 > size ==> r == -1 && length == size && p[..] == old(p[..])
    ensures 56 + n + n % 2 <= size ==> r == 20 && length == 56 + n
    ensures 56 + n + n % 2 <= size ==> p[..20] == SealedIp(56 + n, 64, 1, reporter, from)
    ensures 56 + n + n % 2 <= size && 56 + n < 65536 ==>
      p[..56 + n] == Datagram(Report(reporter, code, from, fromPort, to, toPort, old(data[..n])))
    ensures forall i :: 0 <= i < p.Length && size <= i ==> p[i] == old(p[i])
  {
    hide Check, Udp, Icmp, SealedIp;
    if 56 > size || 56 + (n + 1) / 2 * 2 > size {
      return -1, size;
    }
    WritePayload(p, data, n);
    WriteUdp(p, n, from, fromPort, to, toPort);
    ghost var s1 := p[..];
    WriteIp(p, 28, n + 28, 1, 17, from, to);
    SameSlice(s1, p[..], 48, 56 + n);
    assert p[28..56 + n] == p[28..48] + s1[48..56 + n];
    WriteIcmp(p, 28 + n, code);
    ghost var s2 := p[..];
    WriteIp(p, 0, n + 56, 64, 1, reporter, from);
    SameSlice(s2, p[..], 20, 56 + n);
    assert p[..56 + n] == p[0..20] + s2[20..56 + n];
    assert p[..20] == p[0..20];
    r, length := 20, n + 56;
  }

  // ------ receiving

  /** Clears a checksum field of p[o..o + size] and computes it anew; bytes of an odd number
      are followed by a zero. */
  method Renew(p: array<Byte>, o: nat, size: nat, field: nat) returns (stored: Word, computed: Word)
    requires o + size + size % 2 <= p.Length && size <= 0x2_0000 && field + 2 <= size
    requires size % 2 == 1 ==> p[o + size] == 0
    modifies p
    ensures var s := old(p[o..o + size]);
      && stored == Swap(At16(s, field)) && computed == Swap(Check(Cleared(s, field)))
      && p[o + field..o + field + 2] == Big16(Check(Cleared(s, field)))
    ensures forall i :: 0 <= i < p.Length && !(o + field <= i < o + field + 2) ==> p[i] == old(p[i])
  {
    hide Check, Swap, Big16, Pair, Load16, At16;
    ghost var s := p[o..o + size];
    stored := Load16(p, o + field);
    LoadIs(p, o + field, s, field);
    Clear16(p, o + field);
    assert p[o..o + size] == Cleared(s, field);
    StoreSum(p, o + field, o, size);
    computed := Load16(p, o + field);
    LoadBig(p, o + field, Check(Cleared(s, field)));
  }

  lemma LoadIs(p: array<Byte>, o: nat, s: seq<Byte>, k: nat)
    requires o + 2 <= p.Length && k + 2 <= |s| && p[o] == s[k] && p[o + 1] == s[k + 1]
    ensures Load16(p, o) == Swap(At16(s, k))
  {
    hide Swap, Pair;
    SwapIs(s[k + 1], s[k]);
  }

  lemma LoadBig(p: array<Byte>, o: nat, w: Word)
    requires o + 2 <= p.Length && p[o..o + 2] == Big16(w)
    ensures Load16(p, o) == Swap(w)
  {
    hide Big16;
    BigWord(w);
    assert p[o] == p[o..o + 2][0] && p[o + 1] == p[o..o + 2][1];
  }

  lemma BigWord(w: Word)
    ensures Pair(Big16(w)[1], Big16(w)[0]) == Swap(w)
  {
    SwapIs(w % 256, w / 256);
  }

  lemma SameBytes(high: Byte, low: Byte, w: Word)
    requires Pair(high, low) == w
    ensures Big16(w) == [high, low]
  {
    PairIs(high, low);
  }

  /** A checksum that is right is left as it is. */
  method Confirm(p: array<Byte>, o: nat, size: nat, field: nat) returns (ok: bool)
    requires o + size + size % 2 <= p.Length && size <= 0x2_0000 && field + 2 <= size
    requires size % 2 == 1 ==> p[o + size] == 0
    modifies p
    ensures var s := old(p[o..o + size]); ok <==> At16(s, field) == Check(Cleared(s, field))
    ensures ok ==> p[..] == old(p[..])
    ensures forall i :: 0 <= i < p.Length && !(o + field <= i < o + field + 2) ==> p[i] == old(p[i])
  {
    hide Check, Swap, Big16, Pair;
    ghost var s, before := p[o..o + size], p[..];
    var stored, computed := Renew(p, o, size, field);
    SwapOneToOne(At16(s, field), Check(Cleared(s, field)));
    ok := stored == computed;
    if ok {
      SameBytes(s[field], s[field + 1], Check(Cleared(s, field)));
      ghost var word := p[o + field..o + field + 2];
      assert word[0] == p[o + field] && word[1] == p[o + field + 1];
      assert forall i :: 0 <= i < p.Length ==> p[i] == before[i];
    }
  }

  /** ntohs of a word, stored back. */
  method Turn(p: array<Byte>, ghost len: nat, o: nat)
    requires o + 2 <= len <= p.Length
    modifies p
    ensures p[..len] == Turned(old(p[..len]), o)
    ensures forall i :: 0 <= i < p.Length && !(o <= i < o + 2) ==> p[i] == old(p[i])
  {
    hide Htons, Load16, Big16;
    LoadTurned(p, o);
    StoreNet16(p, o, Load16(p, o));
    assert p[o..o + 2][0] == p[o] && p[o..o + 2][1] == p[o + 1];
  }

  lemma LoadTurned(p: array<Byte>, o: nat)
    requires o + 2 <= p.Length
    ensures Big16(Load16(p, o)) == [p[o + 1], p[o]]
  {
    SameBytes(p[o + 1], p[o], Load16(p, o));
  }

  /** Puts scrambled length and offset fields in order; fails on any other wrong length. */
  method FixLengths(p: array<Byte>, len: nat) returns (ok: bool)
    requires 56 <= len <= p.Length
    modifies p
    ensures var s := old(p[..len]);
      (ok <==> At16(s, 2) == len || Scrambled(s)) && (ok ==> p[..len] == InOrder(s))
    ensures forall i :: 0 <= i < p.Length && !(2 <= i < 36) ==> p[i] == old(p[i])
  {
    hide Swap, Big16, Turned;
    ghost var s := p[..len];
    LoadIs(p, 2, s, 2);
    SwapSwap(At16(s, 2));
    var length: int := Load16(p, 2);
    if len != Swap(length) {
      if len == length + 20 {
        Unscramble(p, len, length);
        ok := true;
      } else {
        ok := false;
      }
    } else {
      ok := true;
    }
  }

  lemma SwapSwap(w: Word)
    ensures Swap(Swap(w)) == w
  {
    SwapIs(w / 256, w % 256);
    SwapIs(w % 256, w / 256);
  }

  method Unscramble(p: array<Byte>, ghost len: nat, length: int)
    requires 56 <= len <= p.Length && len == length + 20
    modifies p
    ensures p[..len] == Unscrambled(old(p[..len]))
    ensures forall i :: 0 <= i < p.Length && !(2 <= i < 36) ==> p[i] == old(p[i])
  {
    hide Turned;
    ghost var s: seq<Byte> := p[..len];
    StoreNet16(p, 2, length + 20);
    assert p[2..4][0] == p[2] && p[2..4][1] == p[3];
    assert p[..len] == s[2 := p[2]][3 := p[3]];
    Turn(p, len, 6);
    Turn(p, len, 30);
    Turn(p, len, 34);
  }

  /** Four bytes, as the machine reads them. */
  function Load32(p: array<Byte>, o: nat): Address
    requires o + 4 <= p.Length
    reads p
  {
    0x1_0000 * Load16(p, o + 2) + Load16(p, o)
  }

  function Ntohl(v: Address): Address {
    0x1_0000 * Swap(v % 0x1_0000) + Swap(v / 0x1_0000)
  }

  lemma NtohlOf(low: Word, high: Word)
    ensures Ntohl(0x1_0000 * high + low) == 0x1_0000 * Swap(low) + Swap(high)
  {
    hide Swap;
    Arith.Division(0x1_0000 * high + low, high, low, 0x1_0000);
  }

  lemma Load32Is(p: array<Byte>, o: nat, s: seq<Byte>)
    requires o + 4 <= |s| <= p.Length
    requires p[o] == s[o] && p[o + 1] == s[o + 1] && p[o + 2] == s[o + 2] && p[o + 3] == s[o + 3]
    ensures Ntohl(Load32(p, o)) == At32(s, o)
  {
    hide Swap, Load16, At16, Ntohl;
    LoadIs(p, o, s, o);
    LoadIs(p, o + 2, s, o + 2);
    SwapSwap(At16(s, o));
    SwapSwap(At16(s, o + 2));
    NtohlOf(Load16(p, o), Load16(p, o + 2));
  }

  lemma NtohlOneToOne(a: Address, b: Address)
    ensures a == b <==> Ntohl(a) == Ntohl(b)
  {
    hide Swap;
    SwapOneToOne(a % 0x1_0000, b % 0x1_0000);
    SwapOneToOne(a / 0x1_0000, b / 0x1_0000);
    Parts32(Swap(a % 0x1_0000), Swap(a / 0x1_0000), Swap(b % 0x1_0000), Swap(b / 0x1_0000));
  }

  lemma Parts32(high: Word, low: Word, high': Word, low': Word)
    ensures 0x1_0000 * high + low == 0x1_0000 * high' + low' <==> high == high' && low == low'
  {
  }

  /** The outer header's checksum as it is left: filled in where it was missing. */
  function Filled(s: seq<Byte>): (r: seq<Byte>)
    requires |s| >= 56
    ensures |r| == |s|
  {
    var word := Big16(Check(Cleared(s[..20], 10)));
    s[..10] + word + s[12..]
  }

  method CheckOuter(p: array<Byte>, ghost s: seq<Byte>) returns (ok: bool)
    requires 56 <= |s| <= p.Length && p[..|s|] == s
    modifies p
    ensures ok <==> At16(s, 10) == 0 || At16(s, 10) == Check(Cleared(s[..20], 10))
    ensures p[..|s|] == Filled(s)
    ensures forall i :: 0 <= i < p.Length && !(10 <= i < 12) ==> p[i] == old(p[i])
  {
    hide Check, Swap, Big16, Pair, At16;
    ghost var header := s[..20];
    assert p[0..20] == header;
    At16In(s, 0, 20, 10);
    var stored, computed := Renew(p, 0, 20, 10);
    SwapOneToOne(At16(s, 10), Check(Cleared(header, 10)));
    SwapOneToOne(At16(s, 10), 0);
    SwapIs(0, 0);
    ok := stored == 0 || stored == computed;
    assert p[..|s|] == p[..10] + p[10..12] + p[12..|s|];
    assert p[..10] == s[..10] && p[12..|s|] == s[12..];
  }

  method CheckInner(p: array<Byte>, ghost s: seq<Byte>, size: nat) returns (ok: bool)
    requires 56 <= size == |s| <= p.Length && |s| <= 0x2_0000 && (|s| % 2 == 1 ==> |s| < p.Length && p[|s|] == 0)
    requires forall i :: 12 <= i < |s| ==> p[i] == s[i]
    modifies p
    ensures ok <==>
      && Known(At16(s, 20)) && At16(s, 22) == Check(Cleared(s[20..], 2))
      && s[28] == 0x45 && s[37] == 17 && At16(s, 38) == Check(Cleared(s[28..48], 10))
      && At32(s, 16) == At32(s, 40)
    ensures ok ==> p[..] == old(p[..])
    ensures forall i :: 0 <= i < p.Length && !(22 <= i < 24 || 38 <= i < 40) ==> p[i] == old(p[i])
  {
    hide Check, Swap, Big16, Pair, At16, At32, Load16, Load32, Known, Cleared;
    ok := false;
    LoadIs(p, 20, s, 20);
    SwapSwap(At16(s, 20));
    if Known(Swap(Load16(p, 20))) {
      assert p[20..20 + (size - 20)] == s[20..] == s[20..|s|];
      At16In(s, 20, |s|, 2);
      var sum := Confirm(p, 20, size - 20, 2);
      if sum && p[28] == 0x45 && p[37] == 17 {
        assert p[28..48] == s[28..48];
        At16In(s, 28, 48, 10);
        sum := Confirm(p, 28, 20, 10);
        Load32Is(p, 16, s);
        Load32Is(p, 40, s);
        NtohlOneToOne(Load32(p, 16), Load32(p, 40));
        ok := sum && Load32(p, 16) == Load32(p, 40);
      }
    }
  }

  /** Reads the fields of a packet that has been checked. */
  method Read(p: array<Byte>, size: nat)
    returns (reporter: Address, code: Word, from: Address, fromPort: int, to: Address, toPort: int)
    requires 56 <= size <= p.Length
    ensures Report(reporter, code, from, fromPort, to, toPort, p[56..size]) == Reading(p[..size])
  {
    hide Swap, Pair, At16, At32, Load16, Load32;
    ghost var s := p[..size];
    assert p[56..size] == s[56..];
    Load32Is(p, 12, s);
    reporter := Ntohl(Load32(p, 12));
    code := NetWord(p, 20, s);
    Load32Is(p, 44, s);
    to := Ntohl(Load32(p, 44));
    Load32Is(p, 40, s);
    from := Ntohl(Load32(p, 40));
    toPort := NetWord(p, 50, s);
    fromPort := NetWord(p, 48, s);
  }

  method NetWord(p: array<Byte>, o: nat, ghost s: seq<Byte>) returns (w: Word)
    requires o + 2 <= |s| <= p.Length && p[o] == s[o] && p[o + 1] == s[o + 1]
    ensures w == At16(s, o)
  {
    hide Swap, Pair, At16, Load16;
    LoadIs(p, o, s, o);
    SwapSwap(At16(s, o));
    w := Swap(Load16(p, o));
  }

  /** Understands exactly the packets that make sense, and finds in them what they say.  A
      packet that is understood stays as it is, but for scrambled lengths put in order and a
      missing header checksum filled in; the payload always stays. */
  method Recv(p: array<Byte>, len: int)
    returns (r: int, at: nat, n: nat, reporter: Address, code: Word, from: Address, fromPort: int,
             to: Address, toPort: int)
    requires len + len % 2 <= p.Length
    modifies p
    ensures len < 56 ==> r == -1 && p[..] == old(p[..])
    ensures len >= 56 ==> r == if Parse(old(p[..len])).Some? then 0 else -1
    ensures r == 0 ==> at + n == len
    ensures r == 0 ==> Parse(old(p[..len])) == Some(Report(reporter, code, from, fromPort, to, toPort, p[at..at + n]))
    ensures r == 0 ==> p[..len] == Filled(InOrder(old(p[..len])))
    ensures forall i :: 56 <= i < p.Length && !(i == len && len % 2 == 1) ==> p[i] == old(p[i])
  {
    hide InOrder, Scrambled, At16, At32, Cleared, Filled;
    r, at, n, reporter, code, from, fromPort, to, toPort := -1, 0, 0, 0, 0, 0, 0, 0, 0;
    if len < 56 {
      return;
    }
    ghost var s0 := p[..len];
    if len % 2 == 1 {
      p[len] := 0;
    }
    assert p[..len] == s0;
    Untouched(s0);
    if p[0] != 0x45 || p[9] != 1 {
      return;
    }
    var ok := FixLengths(p, len);
    if !ok {
      return;
    }
    ghost var s := p[..len];
    LengthBound(s0);
    ok := CheckOuter(p, s);
    if !ok {
      return;
    }
    FilledRest(s);
    ghost var t := p[..len];
    ok := CheckInner(p, s, len);
    if !ok {
      return;
    }
    reporter, code, from, fromPort, to, toPort := Read(p, len);
    r, at, n := 0, 56, len - 56;
  }

  lemma Untouched(s: seq<Byte>)
    requires |s| >= 56
    ensures InOrder(s)[0] == s[0] && InOrder(s)[9] == s[9] && InOrder(s)[56..] == s[56..]
  {
  }

  lemma LengthBound(s: seq<Byte>)
    requires |s| >= 56 && (At16(s, 2) == |s| || Scrambled(s))
    ensures |s| <= 0x2_0000
  {
  }

  lemma FilledRest(s: seq<Byte>)
    requires |s| >= 56
    ensures forall i :: 12 <= i < |s| ==> Filled(s)[i] == s[i]
    ensures Reading(Filled(s)) == Reading(s)
  {
    hide Check, Big16, Cleared;
  }

  // ------ there and back

  /** What is sent is received exactly if its code is known and IP can say its length; then
      the fields and the payload come back, and the packet stays as it was. */
  method SendAndReceive(p: array<Byte>, data: array<Byte>, n: nat, sent: Report) returns (r: int, received: Report)
    requires 56 + n + n % 2 <= p.Length && n <= data.Length && data != p && sent.data == data[..n]
    modifies p
    ensures r == if Known(sent.code) && 56 + n < 65536 then 0 else -1
    ensures r == 0 ==> received == OnTheWire(sent) && p[..56 + n] == Datagram(sent)
  {
    hide Parse, Datagram, SealedIp, Known, Filled;
    received := sent;
    var skip, length :=
      Send(p, p.Length, data, n, sent.from, sent.fromPort, sent.to, sent.toPort, sent.reporter, sent.code);
    ghost var s := p[..length];
    RoundTrip(sent);
    var r', at, m, reporter, code, from, fromPort, to, toPort := Recv(p, length);
    r := r';
    if 56 + n >= 65536 {
      assert s[..20] == SealedIp(56 + n, 64, 1, sent.reporter, sent.from);
      TooLong(s, sent);
    } else {
      assert Datagram(sent) == s;
      if r == 0 {
        received := Report(reporter, code, from, fromPort, to, toPort, p[at..at + m]);
        NothingToFill(s, sent);
      }
    }
  }

  lemma TooLong(s: seq<Byte>, sent: Report)
    requires |s| >= 65536 && s[..20] == SealedIp(|s|, 64, 1, sent.reporter, sent.from)
    ensures Parse(s).None?
  {
    hide SealedIp, At32, Cleared, Check, Sound;
    IpFields(s[..20], |s|, 64, 1, sent.reporter, sent.from);
    At16In(s, 0, 20, 2);
    NotScrambled(s);
  }

  lemma NothingToFill(s: seq<Byte>, sent: Report)
    requires s == Datagram(sent) && |s| < 65536
    ensures Filled(InOrder(s)) == s
  {
    hide SealedIp, Icmp, At32, Cleared, Check, Big16;
    Parts(sent);
    IpFields(s[..20], |s|, 64, 1, sent.reporter, sent.from);
    At16In(s, 0, 20, 2);
    At16In(s, 0, 20, 10);
    NotScrambled(s);
    SameBytes(s[10], s[11], Check(Cleared(s[..20], 10)));
  }
}
