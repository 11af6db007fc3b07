/**
 Which frames the parser accepts, byte by byte, and what it reads from frames whose IPv4 and TCP headers carry options,
 laid out after section 3.1 of RFC 791 and section 3.1 of RFC 9293.
 */
module FrameFormat {
  import opened Bytes
  import opened Frames
  import opened Numerals
  import Text
  import Ipv4Text

  // ---------------------------------------------------------------- acceptance

  /** The transport header of the given protocol lies whole in the data from offset t on. */
  predicate TransportFits(data: bytes, t: nat, protocol: nat, icmp: nat) {
    if protocol == 6 then
      |data| >= t + 20 && data[t + 12] as int / 16 >= 5 && |data| >= t + 4 * (data[t + 12] as int / 16)
    else if protocol == 17 then |data| >= t + 8 && 8 <= U16(data, t + 4) <= |data| - t
    else if protocol == icmp then |data| >= t + 8
    else true
  }

  predicate AcceptableIpv4(data: bytes) {
    && |data| >= 34 && data[14] as int / 16 == 4 && data[14] as int % 16 >= 5
    && |data| >= 14 + 4 * (data[14] as int % 16)
    && TransportFits(data, 14 + 4 * (data[14] as int % 16), data[23], 1)
  }

  predicate AcceptableIpv6(data: bytes) {
    && |data| >= 54 && data[14] as int / 16 == 6
    && var w := WalkFrom(data, 54, data[20], 10);
       TransportFits(data, w.offset, w.protocol, 58)
  }

  lemma Ipv4AcceptedIff(data: bytes)
    requires |data| >= 14 && U16(data, 12) == 0x0800
    ensures Parse(data).Some? <==> AcceptableIpv4(data)
  {
  }

  lemma Ipv6AcceptedIff(data: bytes)
    requires |data| >= 14 && U16(data, 12) == 0x86DD
    ensures Parse(data).Some? <==> AcceptableIpv6(data)
  {
    hide WalkFrom, ParseIpv4;
  }

  /** Exactly the frames the parser accepts; other Ethernet types are accepted without a network header. */
  lemma AcceptedIff(data: bytes)
    ensures Parse(data).Some? <==>
            && |data| >= 14
            && (U16(data, 12) == 0x0800 ==> AcceptableIpv4(data))
            && (U16(data, 12) == 0x86DD ==> AcceptableIpv6(data))
    ensures |data| >= 14 && U16(data, 12) != 0x0800 && U16(data, 12) != 0x86DD ==>
              Parse(data) == Some(Unparsed.(etherType := U16(data, 12), payload := data[14..]))
  {
    if |data| >= 14 {
      if U16(data, 12) == 0x0800 { Ipv4AcceptedIff(data); }
      if U16(data, 12) == 0x86DD { Ipv6AcceptedIff(data); }
    }
    hide ParseIpv4, ParseIpv6, ParseTransport, AcceptableIpv4, AcceptableIpv6;
  }

  /** The extension headers: hop-by-hop options, routing, fragment, authentication, destination options. */
  lemma ExtensionKinds(next: nat)
    ensures IsExtension(next) <==> next in {0, 43, 44, 51, 60}
  {
  }

  /**
   Where a walk that gives up stops: behind a fragment header that is there but belongs to a later fragment, and
   before a header that is cut off.
   */
  lemma GivesUpAt(data: bytes, offset: nat, chain: seq<Extension>, last: byte, left: nat)
    requires AllWellFormed(chain) && |chain| < left && ChainAt(data, offset, chain, last)
    requires Unsupported(data, offset + |EncodeChain(chain, last)|, last)
    ensures var stop := offset + |EncodeChain(chain, last)|;
            WalkFrom(data, offset, First(chain, last), left)
            == Walk(59, if last == 44 && stop + 8 <= |data| then stop + 8 else stop, true)
  {
    hide *;
    ChainFits(data, offset, chain, last);
    WalkOverChain(data, offset, chain, last, left);
    StopsAt(data, offset + |EncodeChain(chain, last)|, last, left - |chain|);
  }

  lemma StopsAt(data: bytes, stop: nat, last: byte, left: nat)
    requires left > 0 && stop <= |data| && Unsupported(data, stop, last)
    ensures WalkFrom(data, stop, last, left)
         == Walk(59, if last == 44 && stop + 8 <= |data| then stop + 8 else stop, true)
  {
  }

  // ---------------------------------------------------------------- headers with options

  /** Options fill whole words, at most ten of them. */
  predicate Options(options: bytes) {
    |options| % 4 == 0 && |options| <= 40
  }

  /** An IPv4 header; service holds the eight bytes up to the protocol, check the checksum. */
  function Ipv4WithOptions(service: bytes, protocol: byte, check: bytes, src: bytes, dst: bytes, options: bytes): bytes
    requires Options(options)
  {
    [0x40 + 5 + |options| / 4] + service + [protocol] + check + src + dst + options
  }

  /** A TCP header; reserved is the low half of the offset byte, window the six bytes behind the flags. */
  function TcpWithOptions(srcPort: nat, dstPort: nat, seqNumber: nat, ackNumber: nat, reserved: nat, flags: byte,
                          window: bytes, options: bytes): bytes
    requires srcPort < 0x1_0000 && dstPort < 0x1_0000 && seqNumber < 0x1_0000_0000 && ackNumber < 0x1_0000_0000
    requires Options(options) && reserved < 16
  {
    var offsetAndFlags: bytes := [16 * (5 + |options| / 4) + reserved, flags];
    Pack16(srcPort) + Pack16(dstPort) + Pack32(seqNumber) + Pack32(ackNumber) + offsetAndFlags + window + options
  }

  lemma Ipv4Layout(service: bytes, protocol: byte, check: bytes, src: bytes, dst: bytes, options: bytes)
    requires Options(options) && |service| == 8 && |check| == 2 && |src| == 4 && |dst| == 4
    ensures var h := Ipv4WithOptions(service, protocol, check, src, dst, options);
            && |h| == 20 + |options| && h[0] as int == 0x45 + |options| / 4 && h[9] == protocol
            && U32Le(h, 12) == Address(src) && U32Le(h, 16) == Address(dst)
  {
  }

  lemma TcpLayout(srcPort: nat, dstPort: nat, seqNumber: nat, ackNumber: nat, reserved: nat, flags: byte,
                  window: bytes, options: bytes)
    requires srcPort < 0x1_0000 && dstPort < 0x1_0000 && seqNumber < 0x1_0000_0000 && ackNumber < 0x1_0000_0000
    requires Options(options) && reserved < 16 && |window| == 6
    ensures var h := TcpWithOptions(srcPort, dstPort, seqNumber, ackNumber, reserved, flags, window, options);
            && |h| == 20 + |options| && U16(h, 0) == srcPort && U16(h, 2) == dstPort
            && U32(h, 4) == seqNumber && U32(h, 8) == ackNumber
            && h[12] as int / 16 == 5 + |options| / 4 && h[13] == flags
  {
  }

  /** The network layer, whatever follows. */
  lemma Ipv4Read(data: bytes, h: bytes)
    requires |h| >= 20 && 14 + |h| <= |data| && data[14..14 + |h|] == h
    requires h[0] as int / 16 == 4 && h[0] as int % 16 * 4 == |h|
    ensures ParseIpv4(data, Progress(Unparsed.(etherType := 0x0800), 14))
         == Some(Progress(Unparsed.(etherType := 0x0800, protocol := h[9], srcIp := U32Le(h, 12),
                                    dstIp := U32Le(h, 16), hasIp := true),
                          14 + |h|))
  {
    HeaderAt(data, 14, h);
    assert data[14] == h[0] && data[23] == h[9];
    assert data[26] == h[12] && data[27] == h[13] && data[28] == h[14] && data[29] == h[15];
    assert data[30] == h[16] && data[31] == h[17] && data[32] == h[18] && data[33] == h[19];
  }

  lemma TcpRead(data: bytes, p: Progress, h: bytes)
    requires |h| >= 20 && p.offset + |h| <= |data| && data[p.offset..p.offset + |h|] == h
    requires h[12] as int / 16 * 4 == |h|
    ensures ParseTcp(data, p)
         == Some(Progress(p.parsed.(srcPort := U16(h, 0), dstPort := U16(h, 2), seqNumber := U32(h, 4),
                                    ackNumber := U32(h, 8), tcpFlags := h[13], hasTcp := true),
                          p.offset + |h|))
  {
    var o := p.offset;
    HeaderAt(data, o, h);
    assert data[o] == h[0] && data[o + 1] == h[1] && data[o + 2] == h[2] && data[o + 3] == h[3];
    assert data[o + 4] == h[4] && data[o + 5] == h[5] && data[o + 6] == h[6] && data[o + 7] == h[7];
    assert data[o + 8] == h[8] && data[o + 9] == h[9] && data[o + 10] == h[10] && data[o + 11] == h[11];
    assert data[o + 12] == h[12] && data[o + 13] == h[13];
  }

  lemma UdpRead(data: bytes, p: Progress, h: bytes)
    requires |h| == 8 && p.offset + 8 <= |data| && data[p.offset..p.offset + 8] == h
    requires 8 <= U16(h, 4) <= |data| - p.offset
    ensures ParseUdp(data, p)
         == Some(Progress(p.parsed.(srcPort := U16(h, 0), dstPort := U16(h, 2), hasUdp := true), p.offset + 8))
  {
    var o := p.offset;
    HeaderAt(data, o, h);
    assert data[o] == h[0] && data[o + 1] == h[1] && data[o + 2] == h[2] && data[o + 3] == h[3];
    assert data[o + 4] == h[4] && data[o + 5] == h[5];
  }

  lemma FourPieces(a: bytes, b: bytes, c: bytes, d: bytes)
    requires |a| == 14
    ensures var data := a + b + c + d;
            var o := 14 + |b|;
            && data[12] == a[12] && data[13] == a[13]
            && data[14..o] == b && data[o..o + |c|] == c && data[o + |c|..] == d
  {
  }

  /** An IPv4 frame is parsed by its network layer, then its transport. */
  lemma ParseIsIpv4Transport(data: bytes, p: Progress)
    requires |data| >= 14 && U16(data, 12) == 0x0800 && p.offset <= |data|
    requires ParseIpv4(data, Progress(Unparsed.(etherType := 0x0800), 14)) == Some(p)
    ensures Parse(data) == match ParseTransport(data, p, 1)
                           case None => None
                           case Some(q) => Some(q.parsed.(payload := data[q.offset..]))
  {
    hide ParseIpv4, ParseIpv6, ParseTransport;
  }

  lemma TransportIs(data: bytes, p: Progress)
    requires p.offset <= |data|
    ensures p.parsed.protocol == 6 ==> ParseTransport(data, p, 1) == ParseTcp(data, p)
    ensures p.parsed.protocol == 17 ==> ParseTransport(data, p, 1) == ParseUdp(data, p)
  {
    hide ParseTcp, ParseUdp, ParseIcmp;
  }

  /** The parser recovers every field and the payload of a TCP frame with options in either header. */
  lemma ParseUndoesTcpOptions(macs: bytes, service: bytes, check: bytes, src: bytes, dst: bytes, ipOptions: bytes,
                              srcPort: nat, dstPort: nat, seqNumber: nat, ackNumber: nat, reserved: nat, flags: byte,
                              window: bytes, tcpOptions: bytes, payload: bytes)
    requires |macs| == 12 && |service| == 8 && |check| == 2 && |src| == 4 && |dst| == 4 && |window| == 6
    requires srcPort < 0x1_0000 && dstPort < 0x1_0000 && seqNumber < 0x1_0000_0000 && ackNumber < 0x1_0000_0000
    requires Options(ipOptions) && Options(tcpOptions) && reserved < 16
    ensures Parse(macs + Pack16(0x0800) + Ipv4WithOptions(service, 6, check, src, dst, ipOptions)
                  + TcpWithOptions(srcPort, dstPort, seqNumber, ackNumber, reserved, flags, window, tcpOptions)
                  + payload)
         == Some(Unparsed.(etherType := 0x0800, hasIp := true, protocol := 6, srcIp := Address(src),
                           dstIp := Address(dst),
                           hasTcp := true, srcPort := srcPort, dstPort := dstPort, seqNumber := seqNumber,
                           ackNumber := ackNumber, tcpFlags := flags, payload := payload))
  {
    var eth := macs + Pack16(0x0800);
    var ip := Ipv4WithOptions(service, 6, check, src, dst, ipOptions);
    var tcp := TcpWithOptions(srcPort, dstPort, seqNumber, ackNumber, reserved, flags, window, tcpOptions);
    var data := eth + ip + tcp + payload;
    assert |eth| == 14 && eth[12] == 0x08 && eth[13] == 0x00;
    assert 14 + |ip| + |tcp| <= |data|;
    Ipv4Layout(service, 6, check, src, dst, ipOptions);
    TcpLayout(srcPort, dstPort, seqNumber, ackNumber, reserved, flags, window, tcpOptions);
    FourPieces(eth, ip, tcp, payload);
    assert U16(data, 12) == 0x0800;
    hide *;
    Ipv4Read(data, ip);
    var p := Progress(Unparsed.(etherType := 0x0800, protocol := 6, srcIp := Address(src), dstIp := Address(dst),
      hasIp := true), 14 + |ip|);
    TcpRead(data, p, tcp);
    TransportIs(data, p);
    ParseIsIpv4Transport(data, p);
  }

  /** And of a UDP datagram behind an IPv4 header with options, if its length field is at least 8 and fits the data. */
  lemma ParseUndoesUdpOptions(macs: bytes, service: bytes, check: bytes, src: bytes, dst: bytes, ipOptions: bytes,
                              srcPort: nat, dstPort: nat, length: nat, sum: bytes, payload: bytes)
    requires |macs| == 12 && |service| == 8 && |check| == 2 && |src| == 4 && |dst| == 4 && |sum| == 2
    requires srcPort < 0x1_0000 && dstPort < 0x1_0000 && Options(ipOptions)
    requires 8 <= length <= 8 + |payload| && length < 0x1_0000
    ensures Parse(macs + Pack16(0x0800) + Ipv4WithOptions(service, 17, check, src, dst, ipOptions)
                  + (Pack16(srcPort) + Pack16(dstPort) + Pack16(length) + sum) + payload)
         == Some(Unparsed.(etherType := 0x0800, hasIp := true, protocol := 17, srcIp := Address(src),
                           dstIp := Address(dst),
                           hasUdp := true, srcPort := srcPort, dstPort := dstPort, payload := payload))
  {
    var eth := macs + Pack16(0x0800);
    var ip := Ipv4WithOptions(service, 17, check, src, dst, ipOptions);
    var udp := Pack16(srcPort) + Pack16(dstPort) + Pack16(length) + sum;
    var data := eth + ip + udp + payload;
    assert |eth| == 14 && eth[12] == 0x08 && eth[13] == 0x00;
    assert |udp| == 8 && U16(udp, 0) == srcPort && U16(udp, 2) == dstPort && U16(udp, 4) == length;
    assert |data| == 22 + |ip| + |payload|;
    Ipv4Layout(service, 17, check, src, dst, ipOptions);
    FourPieces(eth, ip, udp, payload);
    assert U16(data, 12) == 0x0800;
    hide *;
    Ipv4Read(data, ip);
    var p := Progress(Unparsed.(etherType := 0x0800, protocol := 17, srcIp := Address(src), dstIp := Address(dst),
      hasIp := true), 14 + |ip|);
    UdpRead(data, p, udp);
    TransportIs(data, p);
    ParseIsIpv4Transport(data, p);
  }

  /** An ICMP message is read as one, with what follows its first eight bytes as payload. */
  lemma ParseReadsIcmp(data: bytes)
    requires |data| >= 14 && U16(data, 12) == 0x0800 && AcceptableIpv4(data) && data[23] == 1
    ensures var r := Parse(data);
            && r.Some? && r.value.hasIcmp && !r.value.hasTcp && !r.value.hasUdp && r.value.protocol == 1
            && r.value.payload == data[22 + 4 * (data[14] as int % 16)..]
  {
  }

  /** The four address bytes of a frame, written as a rule writes them, are the address the frame is parsed to. */
  lemma AddressIsItsText(b: bytes)
    requires |b| == 4
    ensures Address(b) < 0x1_0000_0000
    ensures var text := Text.Join([Numeral(b[0], 10), Numeral(b[1], 10), Numeral(b[2], 10), Numeral(b[3], 10)], '.');
            Ipv4Text.Print(Address(b)) == text && Ipv4Text.Parsed(text) == Some(Address(b))
  {
    var w: Word := Address(b);
    OctetsOfAddress(b);
    hide Numeral, Text.Join, Ipv4Text.Parsed, Address;
    assert Ipv4Text.Octets(w) == [Numeral(b[0], 10), Numeral(b[1], 10), Numeral(b[2], 10), Numeral(b[3], 10)];
    Ipv4Text.ParseUndoesPrint(w);
  }

  lemma LowDigit(low: nat, high: nat)
    requires low < 0x100
    ensures (low + 0x100 * high) % 0x100 == low && (low + 0x100 * high) / 0x100 == high
  {
  }

  lemma DivideTwice(n: nat)
    ensures n / 0x1_0000 == n / 0x100 / 0x100 && n / 0x100_0000 == n / 0x100 / 0x100 / 0x100
  {
  }

  lemma OctetsOfAddress(b: bytes)
    requires |b| == 4
    ensures Address(b) < 0x1_0000_0000
    ensures forall i :: 0 <= i < 4 ==> Ipv4Text.Octet(Address(b), i) == b[i]
  {
    var y: nat := b[2] as int + 0x100 * b[3] as int;
    var x: nat := b[1] as int + 0x100 * y;
    var w: Word := b[0] as int + 0x100 * x;
    assert Address(b) == w;
    LowDigit(b[0], x);
    LowDigit(b[1], y);
    LowDigit(b[2], b[3]);
    DivideTwice(w);
    hide Address, U32Le;
    assert Ipv4Text.Octet(w, 0) == b[0] && Ipv4Text.Octet(w, 1) == b[1];
    assert Ipv4Text.Octet(w, 2) == b[2] && Ipv4Text.Octet(w, 3) == b[3];
  }
}
