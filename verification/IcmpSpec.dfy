/** ICMP errors about UDP packets, as bytes in network order: the headers of RFC 791, RFC 792
    and RFC 768, and what a receiver reads in them. */
module IcmpSpec {
  import opened OnesComplement

  type Address = x: int | 0 <= x < 0x1_0000_0000

  function Big16(v: int): (s: seq<Byte>)
    ensures |s| == 2
  {
    [v / 256 % 256, v % 256]
  }

  function Big32(v: int): (s: seq<Byte>)
    ensures |s| == 4
  {
    Big16(v / 65536) + Big16(v % 65536)
  }

  function At32(s: seq<Byte>, o: nat): Address
    requires o + 4 <= |s|
  {
    0x1_0000 * At16(s, o) + At16(s, o + 2)
  }

  lemma Read16(v: int)
    ensures At16(Big16(v), 0) == v % 65536
  {
    var q, r := v / 256, v % 256;
    assert v == 65536 * (q / 256) + (256 * (q % 256) + r);
    Arith.Division(v, q / 256, 256 * (q % 256) + r, 65536);
    PairIs(q % 256, r);
  }

  lemma Read32(v: Address)
    ensures At32(Big32(v), 0) == v
  {
    hide Pair;
    Read16(v % 65536);
    Read16(v / 65536);
    At16In(Big32(v), 0, 2, 0);
    At16In(Big32(v), 2, 4, 0);
  }

  // ------ headers

  /** Section 3.1 of RFC 791, without options. */
  function IpHeader(length: int, ttl: Byte, protocol: Byte, check: Word, source: Address, dest: Address): (h: seq<Byte>)
    ensures |h| == 20
  {
    [0x45, 0] + Big16(length) + [0, 0, 0, 0, ttl, protocol] + Big16(check) + Big32(source) + Big32(dest)
  }

  function SealedIp(length: int, ttl: Byte, protocol: Byte, source: Address, dest: Address): (h: seq<Byte>)
    ensures |h| == 20
  {
    IpHeader(length, ttl, protocol, Check(IpHeader(length, ttl, protocol, 0, source, dest)), source, dest)
  }

  function UdpHeader(sourcePort: int, destPort: int, length: int, check: Word): (h: seq<Byte>)
    ensures |h| == 8
  {
    Big16(sourcePort) + Big16(destPort) + Big16(length) + Big16(check)
  }

  /** What RFC 768 puts before the header when the checksum is computed. */
  function PseudoHeader(source: Address, dest: Address, length: int): (h: seq<Byte>)
    ensures |h| == 12
  {
    Big32(source) + Big32(dest) + [0, 17] + Big16(length)
  }

  function Udp(source: Address, sourcePort: int, dest: Address, destPort: int, data: seq<Byte>): (s: seq<Byte>)
    ensures |s| == 8 + |data|
  {
    var n := 8 + |data|;
    var check := Check(PseudoHeader(source, dest, n) + UdpHeader(sourcePort, destPort, n, 0) + data);
    UdpHeader(sourcePort, destPort, n, check) + data
  }

  function IcmpHeader(code: Word, check: Word): (h: seq<Byte>)
    ensures |h| == 8
  {
    Big16(code) + Big16(check) + [0, 0, 0, 0]
  }

  function Icmp(code: Word, about: seq<Byte>): (s: seq<Byte>)
    ensures |s| == 8 + |about|
  {
    IcmpHeader(code, Check(IcmpHeader(code, 0) + about)) + about
  }

  // ------ packets

  datatype Report = Report(reporter: Address, code: Word, from: Address, fromPort: int, to: Address, toPort: int,
                           data: seq<Byte>)

  datatype Option<T> = None | Some(value: T)

  /** The undeliverable packet. */
  function Lost(r: Report): (s: seq<Byte>)
    ensures |s| == 28 + |r.data|
  {
    SealedIp(28 + |r.data|, 1, 17, r.from, r.to) + Udp(r.from, r.fromPort, r.to, r.toPort, r.data)
  }

  /** The error message about it. */
  function Datagram(r: Report): (s: seq<Byte>)
    ensures |s| == 56 + |r.data|
  {
    SealedIp(56 + |r.data|, 64, 1, r.reporter, r.from) + Icmp(r.code, Lost(r))
  }

  /** Destination unreachable or time exceeded. */
  predicate Known(code: Word) {
    0x0300 <= code <= 0x030c || code == 0x0b00 || code == 0x0b01
  }

  // ------ reading

  /** Two bytes the other way around. */
  function Turned(s: seq<Byte>, o: nat): (r: seq<Byte>)
    requires o + 2 <= |s|
    ensures |r| == |s|
  {
    s[o := s[o + 1]][o + 1 := s[o]]
  }

  /** Some systems leave the outer header's length without the header's own 20 bytes, and all
      lengths and offsets in the order of a little-endian machine. */
  predicate Scrambled(s: seq<Byte>)
    requires |s| >= 56
  {
    At16(s, 2) != |s| && Pair(s[3], s[2]) + 20 == |s|
  }

  function Unscrambled(s: seq<Byte>): (r: seq<Byte>)
    requires |s| >= 56
    ensures |r| == |s|
  {
    Turned(Turned(Turned(s[2 := |s| / 256 % 256][3 := |s| % 256], 6), 30), 34)
  }

  function InOrder(s: seq<Byte>): (r: seq<Byte>)
    requires |s| >= 56
    ensures |r| == |s|
  {
    if Scrambled(s) then Unscrambled(s) else s
  }

  predicate Accepted(s: seq<Byte>) {
    |s| >= 56 && (At16(s, 2) == |s| || Scrambled(s)) && Sound(InOrder(s))
  }

  /** An ICMP error of a known kind, with correct checksums, about a UDP packet of the host it
      is sent to.  Some systems do not fill in the outer header's checksum. */
  predicate Sound(s: seq<Byte>)
    requires |s| >= 56
  {
    && s[0] == 0x45 && s[9] == 1
    && (At16(s, 10) == 0 || At16(s, 10) == Check(Cleared(s[..20], 10)))
    && Known(At16(s, 20)) && At16(s, 22) == Check(Cleared(s[20..], 2))
    && s[28] == 0x45 && s[37] == 17
    && At16(s, 38) == Check(Cleared(s[28..48], 10))
    && At32(s, 16) == At32(s, 40)
  }

  /** All that is checked but the checksums. */
  predicate Formed(s: seq<Byte>)
    requires |s| >= 56
  {
    && s[0] == 0x45 && s[9] == 1 && Known(At16(s, 20)) && s[28] == 0x45 && s[37] == 17
    && At32(s, 16) == At32(s, 40)
  }

  /** RFC 1071's own test: all words, the checksum among them, add up to all ones. */
  predicate Valid(s: seq<Byte>) {
    SumOf(s) == 65535
  }

  /** The checksum at o is all ones where zero would do as well. */
  predicate MinusZero(s: seq<Byte>, o: nat)
    requires o + 2 <= |s|
  {
    At16(s, o) == 65535 && SumOf(Cleared(s, o)) == 65535
  }

  /** A packet is sound exactly if its three checksums are valid, or the outer header has none,
      and none of the three is all ones where zero would do. */
  lemma SoundIff(s: seq<Byte>)
    requires |s| >= 56
    ensures Sound(s) <==>
      && Formed(s) && (At16(s, 10) == 0 || Valid(s[..20])) && Valid(s[20..]) && Valid(s[28..48])
      && !MinusZero(s[..20], 10) && !MinusZero(s[20..], 2) && !MinusZero(s[28..48], 10)
  {
    hide At16, SumOf, Cleared, Known, At32;
    EqualIffValid(s[..20], 10);
    EqualIffValid(s[20..], 2);
    EqualIffValid(s[28..48], 10);
    At16In(s, 0, 20, 10);
    At16In(s, 20, |s|, 2);
    At16In(s, 28, 48, 10);
    assert s[0..20] == s[..20] && s[20..|s|] == s[20..];
  }

  function Reading(s: seq<Byte>): Report
    requires |s| >= 56
  {
    Report(At32(s, 12), At16(s, 20), At32(s, 40), At16(s, 48), At32(s, 44), At16(s, 50), s[56..])
  }

  /** What a receiver makes of a packet. */
  function Parse(s: seq<Byte>): Option<Report> {
    if Accepted(s) then Some(Reading(InOrder(s))) else None
  }

  // ------ what was sent is read

  lemma ClearedCheck(length: int, ttl: Byte, protocol: Byte, check: Word, source: Address, dest: Address)
    ensures Cleared(IpHeader(length, ttl, protocol, check, source, dest), 10)
      == IpHeader(length, ttl, protocol, 0, source, dest)
  {
    hide Big32;
    assert Big16(0) == [0, 0];
    hide Big16;
  }

  lemma IpFields(s: seq<Byte>, length: int, ttl: Byte, protocol: Byte, source: Address, dest: Address)
    requires s == SealedIp(length, ttl, protocol, source, dest)
    ensures s[0] == 0x45 && s[9] == protocol && At16(s, 2) == length % 65536
    ensures At16(s, 10) == Check(Cleared(s, 10))
    ensures At32(s, 12) == source && At32(s, 16) == dest
  {
    hide Check, Big16, Big32, At16, At32;
    var bare := IpHeader(length, ttl, protocol, 0, source, dest);
    ClearedCheck(length, ttl, protocol, Check(bare), source, dest);
    Read16(length);
    Read16(Check(bare));
    Read32(source);
    Read32(dest);
    assert s[2..4] == Big16(length) && s[10..12] == Big16(Check(bare)) && s[12..16] == Big32(source)
      && s[16..20] == Big32(dest);
    At16In(s, 2, 4, 0);
    At16In(s, 10, 12, 0);
    At32In(s, 12, 16, 0);
    At32In(s, 16, 20, 0);
  }

  lemma IcmpFields(s: seq<Byte>, code: Word, about: seq<Byte>)
    requires s == Icmp(code, about)
    ensures At16(s, 0) == code && At16(s, 2) == Check(Cleared(s, 2)) && s[8..] == about
  {
    hide Check;
    assert Cleared(s, 2) == IcmpHeader(code, 0) + about;
    Read16(code);
    Read16(Check(IcmpHeader(code, 0) + about));
  }

  lemma UdpFields(s: seq<Byte>, r: Report)
    requires s == Udp(r.from, r.fromPort, r.to, r.toPort, r.data)
    ensures At16(s, 0) == r.fromPort % 65536 && At16(s, 2) == r.toPort % 65536 && s[8..] == r.data
  {
    hide Check;
    Read16(r.fromPort);
    Read16(r.toPort);
  }

  /** The same word seen in a part. */
  lemma At16In(s: seq<Byte>, from: nat, to: nat, o: nat)
    requires from + o + 2 <= to <= |s|
    ensures At16(s, from + o) == At16(s[from..to], o)
  {
  }

  lemma At32In(s: seq<Byte>, from: nat, to: nat, o: nat)
    requires from + o + 4 <= to <= |s|
    ensures At32(s, from + o) == At32(s[from..to], o)
  {
  }

  lemma Parts(r: Report)
    ensures var s := Datagram(r);
      && s[..20] == SealedIp(56 + |r.data|, 64, 1, r.reporter, r.from)
      && s[20..] == Icmp(r.code, Lost(r))
      && s[28..] == Lost(r)
      && s[28..48] == SealedIp(28 + |r.data|, 1, 17, r.from, r.to)
      && s[48..] == Udp(r.from, r.fromPort, r.to, r.toPort, r.data)
      && s[56..] == r.data
  {
    hide Check, SealedIp, UdpHeader, IcmpHeader, PseudoHeader;
    var s := Datagram(r);
    assert s[28..] == s[20..][8..];
    assert s[48..] == s[28..][20..];
    assert s[56..] == s[48..][8..];
  }

  /** Ports count modulo 2^16. */
  function OnTheWire(r: Report): Report {
    r.(fromPort := r.fromPort % 65536, toPort := r.toPort % 65536)
  }

  /** Round trip: the message sent about a packet is understood exactly if its code is a known
      one and its length fits the length field, and then it says what was sent. */
  lemma RoundTrip(r: Report)
    ensures Parse(Datagram(r)) == if Known(r.code) && 56 + |r.data| < 65536 then Some(OnTheWire(r)) else None
  {
    hide Check, SealedIp, Icmp, Udp, Lost, Datagram, Known, At32, Cleared;
    var s := Datagram(r);
    Parts(r);
    IpFields(s[..20], 56 + |r.data|, 64, 1, r.reporter, r.from);
    IpFields(s[28..48], 28 + |r.data|, 1, 17, r.from, r.to);
    IcmpFields(s[20..], r.code, Lost(r));
    UdpFields(s[48..], r);
    At32In(s, 0, 20, 12);
    At32In(s, 0, 20, 16);
    At32In(s, 28, 48, 12);
    At32In(s, 28, 48, 16);
    NotScrambled(s);
  }

  /** A length that does not fit its field is not taken for a scrambled one. */
  lemma NotScrambled(s: seq<Byte>)
    requires |s| >= 56 && At16(s, 2) == |s| % 65536
    ensures !Scrambled(s)
    ensures At16(s, 2) == |s| <==> |s| < 65536
  {
    PairIs(s[2], s[3]);
    PairIs(s[3], s[2]);
  }

  lemma Understood(s: seq<Byte>)
    requires Parse(s).Some?
    ensures var r := Parse(s).value;
      Known(r.code) && |r.data| == |s| - 56 && OnTheWire(r) == r
  {
    hide Check, Unscrambled, Cleared, Scrambled, Known, Pair, At32;
  }

  /** Which reports are understood from some message; each of them can be sent again, and is then
      understood in the same way. */
  lemma SentAgain(r: Report)
    ensures (exists s: seq<Byte> :: |s| < 65536 && Parse(s) == Some(r)) <==>
      Known(r.code) && OnTheWire(r) == r && 56 + |r.data| < 65536
    ensures (exists s: seq<Byte> :: |s| < 65536 && Parse(s) == Some(r)) ==> Parse(Datagram(r)) == Some(r)
  {
    hide Parse, Datagram, Known;
    RoundTrip(r);
    if Known(r.code) && OnTheWire(r) == r && 56 + |r.data| < 65536 {
      var s := Datagram(r);
      assert |s| < 65536 && Parse(s) == Some(r);
    }
    forall s: seq<Byte> | |s| < 65536 && Parse(s) == Some(r)
      ensures Known(r.code) && OnTheWire(r) == r && 56 + |r.data| < 65536
    {
      Understood(s);
    }
  }

  // ------ a message as some systems deliver it

  /** The outer length without its header's 20 bytes, lowest byte first; the outer flags, the
      inner length and the inner flags with their bytes swapped. */
  function AsDelivered(s: seq<Byte>): (t: seq<Byte>)
    requires 56 <= |s| < 65536
    ensures |t| == |s|
  {
    var length := |s| - 20;
    s[2 := length % 256][3 := length / 256][6 := s[7]][7 := s[6]][30 := s[31]][31 := s[30]][34 := s[35]][35 := s[34]]
  }

  lemma DeliveredBack(s: seq<Byte>)
    requires 56 <= |s| < 65536 && s[2] == |s| / 256 && s[3] == |s| % 256
    ensures Unscrambled(AsDelivered(s)) == s
  {
    var t := AsDelivered(s);
    var u: seq<Byte> := t[2 := |s| / 256 % 256][3 := |s| % 256];
    assert u == s[6 := s[7]][7 := s[6]][30 := s[31]][31 := s[30]][34 := s[35]][35 := s[34]];
    assert Turned(u, 6) == s[30 := s[31]][31 := s[30]][34 := s[35]][35 := s[34]];
    assert Turned(Turned(u, 6), 30) == s[34 := s[35]][35 := s[34]];
  }

  /** It is understood like the message itself, unless its length happens to look right. */
  lemma DeliveredUnderstood(s: seq<Byte>)
    requires 56 <= |s| < 65536 && At16(s, 2) == |s| && At16(AsDelivered(s), 2) != |s|
    ensures Parse(AsDelivered(s)) == Parse(s)
  {
    hide Sound, Reading, Unscrambled;
    var t := AsDelivered(s);
    assert t[2] == (|s| - 20) % 256 && t[3] == (|s| - 20) / 256;
    PairIs(t[3], t[2]);
    PairIs(s[2], s[3]);
    DeliveredBack(s);
    hide Pair, AsDelivered;
  }

  // ------ the message byte by byte

  /** The bytes of an IP header without options or fragments. */
  predicate IpBytes(h: seq<Byte>, length: int, ttl: Byte, protocol: Byte, source: Address, dest: Address)
    requires |h| == 20
  {
    && h[0] == 0x45 && h[1] == 0 && At16(h, 2) == length % 65536 && h[4..8] == [0, 0, 0, 0]
    && h[8] == ttl && h[9] == protocol && At32(h, 12) == source && At32(h, 16) == dest
  }

  lemma SealedBytes(length: int, ttl: Byte, protocol: Byte, source: Address, dest: Address)
    ensures var h := SealedIp(length, ttl, protocol, source, dest);
      IpBytes(h, length, ttl, protocol, source, dest) && Valid(h)
  {
    var h := SealedIp(length, ttl, protocol, source, dest);
    IpFields(h, length, ttl, protocol, source, dest);
    EqualIffValid(h, 10);
    hide Check, Big16, Big32, At32, At16;
    assert h[4..8] == [0, 0, 0, 0];
  }

  /** The message, by offsets alone: its two IP headers, the ICMP header, the UDP header and
      its length, and four checksums that RFC 1071 accepts.  The UDP checksum covers the lost
      packet's addresses, the protocol number and the length before the UDP header. */
  lemma SentBytes(r: Report)
    ensures var s := Datagram(r);
      && IpBytes(s[..20], 56 + |r.data|, 64, 1, r.reporter, r.from) && Valid(s[..20])
      && At16(s, 20) == r.code && s[24..28] == [0, 0, 0, 0] && Valid(s[20..])
      && IpBytes(s[28..48], 28 + |r.data|, 1, 17, r.from, r.to) && Valid(s[28..48])
      && At16(s, 48) == r.fromPort % 65536 && At16(s, 50) == r.toPort % 65536
      && At16(s, 52) == (8 + |r.data|) % 65536 && s[56..] == r.data
      && Valid(s[40..48] + [0, 17] + s[52..54] + s[48..])
  {
    hide SealedIp, Icmp, Udp, Lost, Datagram, IpBytes, Valid, At16;
    var s := Datagram(r);
    Parts(r);
    SealedBytes(56 + |r.data|, 64, 1, r.reporter, r.from);
    SealedBytes(28 + |r.data|, 1, 17, r.from, r.to);
    IcmpBytes(s[20..], r.code, Lost(r));
    UdpBytes(s[48..], r);
    assert s[20..24] == s[20..][..4] && s[24..28] == s[20..][4..8];
    At16In(s, 20, |s|, 0);
    At16In(s, 48, |s|, 0);
    At16In(s, 48, |s|, 2);
    At16In(s, 48, |s|, 4);
    assert s[20..|s|] == s[20..] && s[48..|s|] == s[48..];
    PseudoBytes(s, r);
  }

  lemma IcmpBytes(s: seq<Byte>, code: Word, about: seq<Byte>)
    requires s == Icmp(code, about)
    ensures At16(s, 0) == code && s[4..8] == [0, 0, 0, 0] && Valid(s)
  {
    IcmpFields(s, code, about);
    EqualIffValid(s, 2);
  }

  /** The UDP packet alone, below its pseudo-header. */
  lemma UdpBytes(s: seq<Byte>, r: Report)
    requires s == Udp(r.from, r.fromPort, r.to, r.toPort, r.data)
    ensures At16(s, 0) == r.fromPort % 65536 && At16(s, 2) == r.toPort % 65536
    ensures s[4..6] == Big16(8 + |r.data|) && At16(s, 4) == (8 + |r.data|) % 65536
    ensures Valid(PseudoHeader(r.from, r.to, 8 + |r.data|) + s)
  {
    hide Check, Big32, PseudoHeader;
    var n := 8 + |r.data|;
    UdpFields(s, r);
    Read16(n);
    At16In(s, 4, 6, 0);
    var bare := UdpHeader(r.fromPort, r.toPort, n, 0) + r.data;
    var all := PseudoHeader(r.from, r.to, n) + s;
    UdpCleared(all, r);
    UdpSum(all, r);
    EqualIffValid(all, 18);
  }

  lemma UdpCleared(all: seq<Byte>, r: Report)
    requires all == PseudoHeader(r.from, r.to, 8 + |r.data|) + Udp(r.from, r.fromPort, r.to, r.toPort, r.data)
    ensures Cleared(all, 18)
      == PseudoHeader(r.from, r.to, 8 + |r.data|) + UdpHeader(r.fromPort, r.toPort, 8 + |r.data|, 0) + r.data
  {
    hide Check, PseudoHeader;
    assert Big16(0) == [0, 0];
    hide Big16;
  }

  lemma UdpSum(all: seq<Byte>, r: Report)
    requires all == PseudoHeader(r.from, r.to, 8 + |r.data|) + Udp(r.from, r.fromPort, r.to, r.toPort, r.data)
    ensures At16(all, 18)
      == Check(PseudoHeader(r.from, r.to, 8 + |r.data|) + UdpHeader(r.fromPort, r.toPort, 8 + |r.data|, 0) + r.data)
  {
    hide Check, PseudoHeader, At16, Big16;
    var n := 8 + |r.data|;
    var check := Check(PseudoHeader(r.from, r.to, n) + UdpHeader(r.fromPort, r.toPort, n, 0) + r.data);
    assert all[18..20] == Big16(check);
    Read16(check);
    At16In(all, 18, 20, 0);
  }

  /** Where the parts of the pseudo-header are in the message. */
  lemma PseudoBytes(s: seq<Byte>, r: Report)
    requires |s| >= 56 && s[28..48] == SealedIp(28 + |r.data|, 1, 17, r.from, r.to)
    requires s[48..][4..6] == Big16(8 + |r.data|)
    ensures s[40..48] + [0, 17] + s[52..54] == PseudoHeader(r.from, r.to, 8 + |r.data|)
  {
    hide Check, Big16, Big32;
    assert s[40..48] == s[28..48][12..20];
    assert s[52..54] == s[48..][4..6];
    assert s[28..48][12..20] == Big32(r.from) + Big32(r.to);
  }

  // ------ a valid packet that is not understood

  /** All ones in place of a zero checksum of the outer header. */
  function OnesForZero(s: seq<Byte>): (r: seq<Byte>)
    requires |s| >= 56
    ensures |r| == |s|
  {
    s[10 := 255][11 := 255]
  }

  lemma OnesWord(s: seq<Byte>)
    requires |s| >= 56
    ensures var t := OnesForZero(s);
      && At16(t, 10) == 65535 && Cleared(t[..20], 10) == Cleared(s[..20], 10)
      && t[2] == s[2] && t[3] == s[3] && t[20..] == s[20..]
  {
    PairIs(255, 255);
  }

  /** Whenever the checksum that is sent is zero, all ones would be just as valid, and would be
      rejected. */
  lemma OnesRejected(r: Report)
    requires Known(r.code) && 56 + |r.data| < 65536 && At16(Datagram(r), 10) == 0
    ensures Parse(Datagram(r)) == Some(OnTheWire(r))
    ensures Valid(Datagram(r)[..20]) && Valid(OnesForZero(Datagram(r))[..20])
    ensures Parse(OnesForZero(Datagram(r))) == None
  {
    hide SealedIp, Icmp, Lost, Datagram, Known, At32, Cleared, Parse, At16, SumOf, Pair, OnesForZero;
    RoundTrip(r);
    var s := Datagram(r);
    Parts(r);
    IpFields(s[..20], 56 + |r.data|, 64, 1, r.reporter, r.from);
    assert s[0..20] == s[..20];
    At16In(s, 0, 20, 10);
    At16In(s, 0, 20, 2);
    SumWithout(s[..20], 10);
    var t := OnesForZero(s);
    OnesWord(s);
    assert t[0..20] == t[..20];
    At16In(t, 0, 20, 10);
    SumWithout(t[..20], 10);
    OnesNotParsed(s, t);
  }

  lemma OnesNotParsed(s: seq<Byte>, t: seq<Byte>)
    requires |s| >= 56 && |t| == |s| && t[2] == s[2] && t[3] == s[3] && At16(s, 2) == |s| % 65536
    requires At16(t, 10) == 65535 && SumOf(Cleared(t[..20], 10)) == 65535
    ensures Parse(t) == None
  {
    hide Known, At32, Cleared, SumOf, Pair;
    NotScrambled(t);
  }

  lemma SumFirst(a: Byte, b: Byte, rest: seq<Byte>)
    ensures SumOf([a, b] + rest) == Plus(256 * a + b, SumOf(rest))
  {
    assert ([a, b] + rest)[2..] == rest;
    PairIs(a, b);
  }

  /** Its header adds up to all ones without a checksum. */
  lemma ExampleSum()
    ensures SumOf(IpHeader(56, 64, 1, 0, 0x7ac6_0000, 0)) == 65535
  {
    hide SumOf;
    SumOfZeros(3);
    var zeros: seq<Byte> := [0, 0, 0, 0, 0, 0];
    assert Zeros(3) == zeros by { ThreeZeros(); }
    SumFirst(0x7a, 0xc6, zeros);
    var address := [0x7a, 0xc6] + zeros;
    SumFirst(0, 0, address);
    SumFirst(64, 1, [0, 0] + address);
    var kind := [64, 1] + ([0, 0] + address);
    SumFirst(0, 0, kind);
    SumFirst(0, 0, [0, 0] + kind);
    var unfragmented := [0, 0] + ([0, 0] + kind);
    SumFirst(0, 56, unfragmented);
    SumFirst(0x45, 0, [0, 56] + unfragmented);
    assert Big32(0x7ac6_0000) == [0x7a, 0xc6, 0, 0] && Big32(0) == [0, 0, 0, 0] && Big16(56) == [0, 56];
    assert Big16(0) == [0, 0];
    assert IpHeader(56, 64, 1, 0, 0x7ac6_0000, 0) == [0x45, 0] + ([0, 56] + unfragmented);
  }

  function Zeros(words: nat): (s: seq<Byte>) {
    if words == 0 then [] else [0, 0] + Zeros(words - 1)
  }

  lemma {:induction false} SumOfZeros(words: nat)
    ensures SumOf(Zeros(words)) == 0
  {
    if words > 0 {
      SumOfZeros(words - 1);
      SumFirst(0, 0, Zeros(words - 1));
    }
  }

  lemma ThreeZeros()
    ensures Zeros(3) == [0, 0, 0, 0, 0, 0]
  {
    assert Zeros(1) == [0, 0] && Zeros(2) == [0, 0, 0, 0];
  }

  /** An error without payload that the host 122.198.0.0 reports to the host 0.0.0.0 is one. */
  lemma OnesExample(r: Report)
    requires r.reporter == 0x7ac6_0000 && r.from == 0 && r.data == []
    ensures At16(Datagram(r), 10) == 0
  {
    hide SumOf, Big16, Big32, Icmp, Lost, Datagram, At16, At32;
    var s := Datagram(r);
    Parts(r);
    IpFields(s[..20], 56, 64, 1, r.reporter, r.from);
    ClearedCheck(56, 64, 1, Check(IpHeader(56, 64, 1, 0, r.reporter, r.from)), r.reporter, r.from);
    ExampleSum();
    assert s[0..20] == s[..20];
    At16In(s, 0, 20, 10);
  }
}
