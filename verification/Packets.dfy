/** IPv4 and TCP headers as the network tests build and check them. */
module Packets {
  import opened Bytes
  import opened Checksum

  type Address = a: seq<Byte> | |a| == 4 witness [0, 0, 0, 0]

  const HEADER := 20
  const PROTOCOL_TCP := 6

  function Big32(x: nat): (s: seq<Byte>)
    ensures |s| == 4
  {
    Big16(x / 0x1_0000) + Big16(x)
  }

  function Read16(s: seq<Byte>): nat
    requires |s| == 2
  {
    Word(s[0], s[1])
  }

  lemma {:induction false} Big16RoundTrip(x: nat)
    ensures Read16(Big16(x)) == x % 0x1_0000
  {
  }

  // ---------------------------------------------------------------- IPv4

  /** The header up to its checksum; the total length has 16 bits. */
  function IpHead(payload: nat, protocol: Byte): (s: seq<Byte>)
    ensures |s| == 10
  {
    [0x45, 0] + Big16(HEADER + payload) + Big16(0) + Big16(0) + [18, protocol]
  }

  function IpHeader(payload: nat, protocol: Byte, src: Address, dst: Address, checksum: nat): (s: seq<Byte>)
    ensures |s| == HEADER
  {
    Stamped(IpHead(payload, protocol), checksum, src + dst)
  }

  /** Build a header: first without a checksum, then with the one that was computed. */
  method SendIp(payload: nat, protocol: Byte, src: Address, dst: Address) returns (header: seq<Byte>)
    ensures header == IpHeader(payload, protocol, src, dst, Internet(START, IpHeader(payload, protocol, src, dst, 0)))
    ensures |header| == HEADER && Internet(START, header) == 0
  {
    header := IpHeader(payload, protocol, src, dst, 0);
    var checksum := IPChecksum(START, header);
    Verifies(IpHead(payload, protocol), checksum, src + dst);
    header := IpHeader(payload, protocol, src, dst, checksum);
  }

  datatype Option<T> = None | Some(value: T)

  /** Where a receiver finds the payload in a packet. */
  datatype Part = Part(offset: nat, length: nat)

  /** Sizes have 64 bits. */
  function Size(x: int): nat
  {
    x % 0x1_0000_0000_0000_0000
  }

  predicate Matches(expected: Option<Address>, found: seq<Byte>)
  {
    expected.Some? ==> found == expected.value
  }

  /** What a receiver makes of a packet behind the link header, with addresses that it may leave open: where the
      payload is, or nothing if a check fails. */
  function CheckIp(packet: seq<Byte>, src: Option<Address>, dst: Option<Address>, protocol: Byte): Option<Part>
  {
    if |packet| < HEADER then None
    else
      var total := Read16(packet[2..4]);
      var offset := packet[0] % 16 * 4;
      if packet[0] / 16 == 4 && Internet(START, packet[..HEADER]) == 0
         && offset < total <= |packet| && Read16(packet[6..8]) == 0
         && packet[8] > 1 && packet[9] == protocol && Matches(src, packet[12..16]) && Matches(dst, packet[16..20])
      then Some(Part(offset, Size(total - HEADER)))
      else None
  }

  /** Whether a packet is accepted, byte by byte: version 4, words that add up to a multiple of 65535, a total length
      above that of the header and within the packet, no fragment, a hop to live, and the protocol and addresses that
      are expected. */
  lemma {:induction false} CheckIpMeans(packet: seq<Byte>, src: Option<Address>, dst: Option<Address>, protocol: Byte)
    requires |packet| >= 20
    ensures var total, header := Word(packet[2], packet[3]), packet[0] % 16 * 4;
            var r := CheckIp(packet, src, dst, protocol);
            && (r.Some? <==>
                && packet[0] / 16 == 4 && Sum(packet[..20]) > 0 && Sum(packet[..20]) % 0xFFFF == 0
                && header < total <= |packet| && packet[6] == 0 && packet[7] == 0 && packet[8] > 1
                && packet[9] == protocol && (src.Some? ==> packet[12..16] == src.value)
                && (dst.Some? ==> packet[16..20] == dst.value))
            && (r.Some? && total >= 20 ==> r.value == Part(header, total - 20))
  {
    hide Sum, Internet, Word;
    Read16Zero(packet[6..8]);
    StoredBounds(packet[2..4]);
    InternetZero(packet[..20]);
  }

  lemma {:induction false} Read16Zero(s: seq<Byte>)
    requires |s| == 2
    ensures Read16(s) == 0 <==> s[0] == 0 && s[1] == 0
  {
  }

  lemma {:induction false} InternetZero(d: seq<Byte>)
    ensures Internet(START, d) == 0 <==> Sum(d) > 0 && Sum(d) % 0xFFFF == 0
  {
    hide Sum;
    FoldFull(Sum(d));
  }

  /** The bytes of a part that lies within the packet. */
  function Payload(packet: seq<Byte>, part: Option<Part>): Option<seq<Byte>>
  {
    if part.Some? && part.value.offset + part.value.length <= |packet|
    then Some(packet[part.value.offset..part.value.offset + part.value.length])
    else None
  }

  lemma {:induction false} IpFields(payload: nat, protocol: Byte, src: Address, dst: Address, checksum: nat)
    ensures var h := IpHeader(payload, protocol, src, dst, checksum);
            && h[0] == 0x45 && Read16(h[2..4]) == (HEADER + payload) % 0x1_0000 && Read16(h[6..8]) == 0
            && h[8] == 18 && h[9] == protocol && h[12..16] == src && h[16..20] == dst
  {
    var h := IpHeader(payload, protocol, src, dst, checksum);
    Big16RoundTrip(HEADER + payload);
    assert h[2..4] == Big16(HEADER + payload);
    assert h[6..8] == Big16(0);
    assert h[12..16] == src && h[16..20] == dst;
  }

  /** The other bytes of the header: services and identification are 0, and the checksum is stored behind the
      protocol. */
  lemma {:induction false} IpRest(payload: nat, protocol: Byte, src: Address, dst: Address, checksum: nat)
    ensures var h := IpHeader(payload, protocol, src, dst, checksum);
            h[1] == 0 && h[4] == 0 && h[5] == 0 && Read16(h[10..12]) == checksum % 0x1_0000
  {
    hide Read16;
    var h := IpHeader(payload, protocol, src, dst, checksum);
    Big16RoundTrip(checksum);
    assert h[10..12] == Big16(checksum);
  }

  /** The words of a header that is sent add up to a multiple of 65535, section 3.1 of RFC 791. */
  lemma {:induction false} IpSum(payload: nat, protocol: Byte, src: Address, dst: Address)
    ensures var h := IpHeader(payload, protocol, src, dst, Internet(START, IpHeader(payload, protocol, src, dst, 0)));
            Sum(h) > 0 && Sum(h) % 0xFFFF == 0
  {
    hide IpHeader, Sum;
    var h := IpHeader(payload, protocol, src, dst, Internet(START, IpHeader(payload, protocol, src, dst, 0)));
    IpVerifies(payload, protocol, src, dst);
    FoldFull(Sum(h));
  }

  /** A packet as it is sent. */
  function IpPacket(payload: seq<Byte>, protocol: Byte, src: Address, dst: Address): seq<Byte>
  {
    IpHeader(|payload|, protocol, src, dst, Internet(START, IpHeader(|payload|, protocol, src, dst, 0))) + payload
  }

  /** A packet that was sent is accepted with as much of the payload as its 16-bit length announces, unless that
      is nothing. */
  lemma {:induction false} IpAccepted(payload: seq<Byte>, protocol: Byte, src: Address, dst: Address)
    ensures var total := (HEADER + |payload|) % 0x1_0000;
            Payload(IpPacket(payload, protocol, src, dst),
                    CheckIp(IpPacket(payload, protocol, src, dst), Some(src), Some(dst), protocol))
            == if total > HEADER then Some(payload[..total - HEADER]) else None
  {
    hide IpHeader, Internet, Read16;
    var c := Internet(START, IpHeader(|payload|, protocol, src, dst, 0));
    var h := IpHeader(|payload|, protocol, src, dst, c);
    var p := IpPacket(payload, protocol, src, dst);
    var total := (HEADER + |payload|) % 0x1_0000;
    IpVerifies(|payload|, protocol, src, dst);
    IpFields(|payload|, protocol, src, dst, c);
    assert p[..HEADER] == h && p[2..4] == h[2..4] && p[6..8] == h[6..8];
    assert p[12..16] == h[12..16] && p[16..20] == h[16..20];
    if total > HEADER {
      assert CheckIp(p, Some(src), Some(dst), protocol) == Some(Part(HEADER, total - HEADER));
      assert p[HEADER..HEADER + (total - HEADER)] == payload[..total - HEADER];
    }
  }

  /** So it gives back its payload just if that is not empty and fits into 65535 bytes together with the header. */
  lemma {:induction false} IpRoundTrip(payload: seq<Byte>, protocol: Byte, src: Address, dst: Address)
    ensures var p := IpPacket(payload, protocol, src, dst);
            Payload(p, CheckIp(p, Some(src), Some(dst), protocol)) == Some(payload) <==>
            0 < |payload| < 0x1_0000 - HEADER
  {
    hide IpPacket, CheckIp, Payload;
    IpAccepted(payload, protocol, src, dst);
    var total := (HEADER + |payload|) % 0x1_0000;
    if total > HEADER {
      assert |payload[..total - HEADER]| == total - HEADER;
      assert total == HEADER + |payload| ==> payload[..total - HEADER] == payload;
    }
  }

  lemma {:induction false} IpVerifies(payload: nat, protocol: Byte, src: Address, dst: Address)
    ensures var checksum := Internet(START, IpHeader(payload, protocol, src, dst, 0));
            Internet(START, IpHeader(payload, protocol, src, dst, checksum)) == 0
  {
    hide Internet;
    var c := Internet(START, IpHeader(payload, protocol, src, dst, 0));
    Verifies(IpHead(payload, protocol), c, src + dst);
  }

  // ---------------------------------------------------------------- TCP

  /** The pseudo-header, section 3.1 of RFC 9293. */
  function Pseudo(src: Address, dst: Address, length: nat): (s: seq<Byte>)
    ensures |s| == 12
  {
    src + dst + [0, PROTOCOL_TCP] + Big16(length)
  }

  type U16 = x: nat | x < 0x1_0000
  type U32 = x: nat | x < 0x1_0000_0000

  /** The pseudo-header byte by byte: the two addresses, a zero, the protocol and the length. */
  lemma {:induction false} PseudoLayout(src: Address, dst: Address, length: nat)
    ensures var p := Pseudo(src, dst, length);
            && p[0] == src[0] && p[1] == src[1] && p[2] == src[2] && p[3] == src[3]
            && p[4] == dst[0] && p[5] == dst[1] && p[6] == dst[2] && p[7] == dst[3]
            && p[8] == 0 && p[9] == 6 && Word(p[10], p[11]) == length % 0x1_0000
  {
    Big16RoundTrip(length);
    assert Pseudo(src, dst, length)[10..12] == Big16(length);
  }

  lemma {:induction false} PseudoSum(src: Address, dst: Address, length: nat)
    ensures Sum(Pseudo(src, dst, length)) == Word(src[0], src[1]) + Word(src[2], src[3])
                                             + Word(dst[0], dst[1]) + Word(dst[2], dst[3]) + 6 + length % 0x1_0000
  {
    hide Word;
    PseudoLayout(src, dst, length);
    var p := Pseudo(src, dst, length);
    SumSix(p);
    assert Word(0, 6) == 6 by { WordSix(); }
  }

  lemma {:induction false} WordSix()
    ensures Word(0, 6) == 6
  {
  }

  lemma {:induction false} SumSix(p: seq<Byte>)
    requires |p| == 12
    ensures Sum(p) == Word(p[0], p[1]) + Word(p[2], p[3]) + Word(p[4], p[5]) + Word(p[6], p[7])
                      + Word(p[8], p[9]) + Word(p[10], p[11])
  {
    hide Word, Sum;
    assert p[2 * 0..] == p;
    SumStep(p, 0);
    SumStep(p, 1);
    SumStep(p, 2);
    SumStep(p, 3);
    SumStep(p, 4);
    SumStep(p, 5);
    SumEnd(p);
  }

  datatype Segment = Segment(sport: U16, dport: U16, sequence: U32, ack: U32, flags: Byte, window: U16)

  function TcpHead(t: Segment): (s: seq<Byte>)
    ensures |s| == 16
  {
    Big16(t.sport) + Big16(t.dport) + Big32(t.sequence) + Big32(t.ack) + [0x50, t.flags] + Big16(t.window)
  }

  function TcpHeader(t: Segment, checksum: nat): (s: seq<Byte>)
    ensures |s| == HEADER
  {
    Stamped(TcpHead(t), checksum, Big16(0))
  }

  /** The checksum as it is computed: over the pseudo-header, then the header, then the data. */
  function ChainedChecksum(src: Address, dst: Address, length: nat, header: seq<Byte>, data: seq<Byte>): (r: nat)
    ensures r <= 0xFFFF
  {
    Internet(Internet(Internet(START, Pseudo(src, dst, length)), header), data)
  }

  /** That is the checksum over all of it at once. */
  lemma {:induction false} ChainedOnce(src: Address, dst: Address, length: nat, header: seq<Byte>, data: seq<Byte>)
    requires |header| % 2 == 0
    ensures ChainedChecksum(src, dst, length, header, data) == Internet(START, Pseudo(src, dst, length) + header + data)
  {
    hide Internet, Pseudo;
    Chain(START, Pseudo(src, dst, length), header);
    Chain(START, Pseudo(src, dst, length) + header, data);
  }

  /** The checksum is the standard one: the sum over pseudo-header, header and data verifies to 0. */
  lemma {:induction false} TcpVerifies(src: Address, dst: Address, t: Segment, data: seq<Byte>)
    ensures var checksum := ChainedChecksum(src, dst, HEADER + |data|, TcpHeader(t, 0), data);
            Internet(START, Pseudo(src, dst, HEADER + |data|) + TcpHeader(t, checksum) + data) == 0
  {
    hide Internet, Pseudo, TcpHead, Big16;
    var p := Pseudo(src, dst, HEADER + |data|);
    var c := ChainedChecksum(src, dst, HEADER + |data|, TcpHeader(t, 0), data);
    ChainedOnce(src, dst, HEADER + |data|, TcpHeader(t, 0), data);
    Verifies(p + TcpHead(t), c, Big16(0) + data);
    assert p + TcpHeader(t, 0) + data == Stamped(p + TcpHead(t), 0, Big16(0) + data);
    assert p + TcpHeader(t, c) + data == Stamped(p + TcpHead(t), c, Big16(0) + data);
  }

  /** Written out, section 3.1 of RFC 9293: the words of both addresses, the protocol, the length, and the words of
      header and data add up to a multiple of 65535. */
  lemma {:induction false} TcpSum(src: Address, dst: Address, t: Segment, data: seq<Byte>)
    ensures var s := Sent(src, dst, t, data);
            var total := Word(src[0], src[1]) + Word(src[2], src[3]) + Word(dst[0], dst[1]) + Word(dst[2], dst[3])
                         + 6 + |s| % 0x1_0000 + Sum(s);
            total > 0 && total % 0xFFFF == 0
  {
    hide Pseudo, Word, Sum, TcpHead, Big16;
    var s := Sent(src, dst, t, data);
    TcpVerifies(src, dst, t, data);
    var c := ChainedChecksum(src, dst, HEADER + |data|, TcpHeader(t, 0), data);
    assert Pseudo(src, dst, |s|) + TcpHeader(t, c) + data == Pseudo(src, dst, |s|) + s;
    PseudoSum(src, dst, |s|);
    SumConcat(Pseudo(src, dst, |s|), s);
    FoldFull(Sum(Pseudo(src, dst, |s|) + s));
  }

  /** The header of a segment byte by byte. */
  lemma {:induction false} TcpLayout(t: Segment, checksum: U16)
    ensures var h := TcpHeader(t, checksum);
            && Word(h[0], h[1]) == t.sport && Word(h[2], h[3]) == t.dport
            && Word(h[4], h[5]) * 0x1_0000 + Word(h[6], h[7]) == t.sequence
            && Word(h[8], h[9]) * 0x1_0000 + Word(h[10], h[11]) == t.ack
            && h[12] == 0x50 && h[13] == t.flags && Word(h[14], h[15]) == t.window
            && Word(h[16], h[17]) == checksum && h[18] == 0 && h[19] == 0
  {
    hide Word;
    FieldsSent(t, checksum, []);
    var h := TcpHeader(t, checksum);
    assert h + [] == h;
    Big16RoundTrip(checksum);
    assert h[16..18] == Big16(checksum) && h[18..20] == Big16(0) == [0, 0];
    assert h[4..8][..2] == h[4..6] && h[4..8][2..] == h[6..8];
    assert h[8..12][..2] == h[8..10] && h[8..12][2..] == h[10..12];
  }

  /** Build a segment.  Up to 65537 words of data, it carries the checksum and verifies to 0. */
  method SendTcp(src: Address, dst: Address, t: Segment, data: seq<Byte>) returns (segment: seq<Byte>)
    ensures |segment| == HEADER + |data| && segment[..16] == TcpHead(t) && segment[HEADER..] == data
    ensures |data| <= 2 * 65537 ==> segment == Sent(src, dst, t, data)
    ensures |data| <= 2 * 65537 ==> Internet(START, Pseudo(src, dst, |segment|) + segment) == 0
  {
    hide Internet, TcpHead, Pseudo;
    var header := TcpHeader(t, 0);
    var checksum := IPChecksum(START, Pseudo(src, dst, HEADER + |data|));
    checksum := IPChecksum(checksum, header);
    checksum := IPChecksum(checksum, data);
    segment := TcpHeader(t, checksum) + data;
    TcpVerifies(src, dst, t, data);
    assert Pseudo(src, dst, |segment|) + segment
        == Pseudo(src, dst, HEADER + |data|) + TcpHeader(t, checksum) + data;
  }

  /** A segment as it is sent. */
  function Sent(src: Address, dst: Address, t: Segment, data: seq<Byte>): (s: seq<Byte>)
    ensures |s| == HEADER + |data|
  {
    TcpHeader(t, ChainedChecksum(src, dst, HEADER + |data|, TcpHeader(t, 0), data)) + data
  }

  // ---------------------------------------------------------------- receiving TCP

  /** Checks that the receiver can be told to leave out once. */
  datatype Skips = Skips(sport: bool, sequence: bool)

  const TCP_ACK := 0x10

  predicate AckSet(flags: Byte)
  {
    flags / TCP_ACK % 2 == 1
  }

  /** What the receiver compares of a segment. */
  predicate Agrees(t: Segment, expected: Segment, skips: Skips)
  {
    && (skips.sport || t.sport == expected.sport) && t.dport == expected.dport && t.flags == expected.flags
    && (skips.sequence || t.sequence == expected.sequence) && (AckSet(expected.flags) ==> t.ack == expected.ack)
  }

  function Read32(s: seq<Byte>): U32
    requires |s| == 4
  {
    Read16(s[..2]) * 0x1_0000 + Read16(s[2..])
  }

  /** The header fields of a segment. */
  function Fields(segment: seq<Byte>): Segment
    requires |segment| >= HEADER
  {
    Segment(Read16(segment[..2]), Read16(segment[2..4]), Read32(segment[4..8]), Read32(segment[8..12]), segment[13],
            Read16(segment[14..16]))
  }

  /** The receiver computes the checksum again with its field set to zero, and compares. */
  predicate SumRight(src: Address, dst: Address, segment: seq<Byte>)
    requires |segment| >= HEADER
  {
    Read16(segment[16..18])
    == ChainedChecksum(src, dst, |segment|, segment[..16] + Big16(0) + segment[18..HEADER], segment[HEADER..])
  }

  /** A segment passes only if the words of both addresses, the protocol, the length, and of the segment itself add
      up to a multiple of 65535; and then it does pass, unless it stores FFFF for a checksum of 0. */
  lemma {:induction false} SumRightMeans(src: Address, dst: Address, s: seq<Byte>)
    requires |s| >= 20
    ensures var total := Word(src[0], src[1]) + Word(src[2], src[3]) + Word(dst[0], dst[1]) + Word(dst[2], dst[3])
                         + 6 + |s| % 0x1_0000 + Sum(s);
            && (SumRight(src, dst, s) ==> total > 0 && total % 0xFFFF == 0)
            && (total > 0 && total % 0xFFFF == 0 ==> SumRight(src, dst, s) || (s[16] == 0xFF && s[17] == 0xFF))
  {
    hide Pseudo, Word, Sum, Big16, Internet;
    var p, stored := Pseudo(src, dst, |s|), Read16(s[16..18]);
    var zeroed := s[..16] + Big16(0) + s[18..HEADER];
    ChainedOnce(src, dst, |s|, zeroed, s[HEADER..]);
    var head, tail := p + s[..16], s[18..];
    assert p + zeroed + s[HEADER..] == Stamped(head, 0, tail);
    assert Big16(stored) == s[16..18] by { StoredBack(s[16], s[17]); }
    assert p + s == Stamped(head, stored, tail);
    StoredBounds(s[16..18]);
    Verifies(head, stored, tail);
    SumVerifies(p, s);
    PseudoSum(src, dst, |s|);
  }

  lemma {:induction false} StoredBack(high: Byte, low: Byte)
    ensures Big16(Word(high, low)) == [high, low]
  {
  }

  lemma {:induction false} StoredBounds(s: seq<Byte>)
    requires |s| == 2
    ensures Read16(s) <= 0xFFFF && (Read16(s) == 0xFFFF ==> s[0] == 0xFF && s[1] == 0xFF)
  {
  }

  lemma {:induction false} SumVerifies(p: seq<Byte>, s: seq<Byte>)
    requires |p| % 2 == 0
    ensures Internet(START, p + s) == 0 <==> Sum(p) + Sum(s) > 0 && (Sum(p) + Sum(s)) % 0xFFFF == 0
  {
    hide Sum;
    SumConcat(p, s);
    FoldFull(Sum(p) + Sum(s));
  }

  /** What a receiver makes of a packet: the data of the segment in it, or nothing if a check fails. */
  function CheckTcp(packet: seq<Byte>, src: Address, dst: Address, expected: Segment, skips: Skips): Option<seq<Byte>>
  {
    var segment := Payload(packet, CheckIp(packet, Some(src), Some(dst), PROTOCOL_TCP));
    if segment.Some? && |segment.value| >= HEADER && segment.value[12] / 16 >= HEADER / 4
       && Agrees(Fields(segment.value), expected, skips) && SumRight(src, dst, segment.value)
    then Some(segment.value[HEADER..])
    else None
  }

  lemma {:induction false} Big32RoundTrip(x: U32)
    ensures Read32(Big32(x)) == x
  {
    hide Big16, Read16;
    Big16RoundTrip(x / 0x1_0000);
    Big16RoundTrip(x);
    assert Big32(x)[..2] == Big16(x / 0x1_0000) && Big32(x)[2..] == Big16(x);
  }

  /** The receiver reads the fields that were sent. */
  lemma {:induction false} FieldsSent(t: Segment, checksum: nat, data: seq<Byte>)
    ensures var s := TcpHeader(t, checksum) + data;
            Fields(s) == t && s[12] == 0x50 && s[..16] == TcpHead(t) && s[16..18] == Big16(checksum)
            && s[18..HEADER] == Big16(0) && s[HEADER..] == data
  {
    hide Read16, Read32, Big16, Big32, Internet;
    var s := TcpHeader(t, checksum) + data;
    assert s[..2] == Big16(t.sport) && s[2..4] == Big16(t.dport) && s[14..16] == Big16(t.window);
    assert s[4..8] == Big32(t.sequence) && s[8..12] == Big32(t.ack);
    Big16RoundTrip(t.sport);
    Big16RoundTrip(t.dport);
    Big16RoundTrip(t.window);
    Big32RoundTrip(t.sequence);
    Big32RoundTrip(t.ack);
  }

  /** Every segment passes the recomputation of a receiver who has got all of it. */
  lemma {:induction false} TcpPasses(src: Address, dst: Address, t: Segment, data: seq<Byte>)
    ensures SumRight(src, dst, Sent(src, dst, t, data))
  {
    hide ChainedChecksum, TcpHead, Read16, Fields;
    var c := ChainedChecksum(src, dst, HEADER + |data|, TcpHeader(t, 0), data);
    FieldsSent(t, c, data);
    Big16RoundTrip(c);
  }

  /** Sent through IP, the data come out of the receiver's checks whole just if the packet has at most 65535
      bytes and the fields are those that the receiver expects. */
  lemma {:induction false} TcpRoundTrip(src: Address, dst: Address, t: Segment, data: seq<Byte>, expected: Segment,
                                        skips: Skips)
    ensures var packet := IpPacket(Sent(src, dst, t, data), PROTOCOL_TCP, src, dst);
            CheckTcp(packet, src, dst, expected, skips) == Some(data) <==>
            HEADER + HEADER + |data| < 0x1_0000 && Agrees(t, expected, skips)
  {
    hide CheckIp, Payload, SumRight, IpPacket, TcpHeader, ChainedChecksum, Agrees, Fields;
    var s := Sent(src, dst, t, data);
    TcpPasses(src, dst, t, data);
    IpAccepted(s, PROTOCOL_TCP, src, dst);
    FieldsSent(t, ChainedChecksum(src, dst, HEADER + |data|, TcpHeader(t, 0), data), data);
    var total := (HEADER + |s|) % 0x1_0000;
    if total > HEADER && total == HEADER + |s| {
      assert s[..total - HEADER] == s;
    }
  }
}
