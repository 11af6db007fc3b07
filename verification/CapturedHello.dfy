/** From a captured frame to the host name: frame parser, job builder and ClientHello walkers composed. */
module CapturedHello {
  import opened Bytes
  import opened Frames
  import opened ClientHello

  /** The TCP frame the traffic generator writes for a client's hello. */
  function HelloFrame(macs: bytes, src: bytes, dst: bytes, ident: nat, srcPort: nat, dstPort: nat,
                      seqNumber: nat, ackNumber: nat, flags: byte, host: bytes, random: bytes): bytes
    requires |macs| == 12 && |src| == 4 && |dst| == 4 && ident < 0x1_0000 && |host| <= MAX_HOST && |random| == 32
    requires 40 + |Record(host, random)| < 0x1_0000
    requires srcPort < 0x1_0000 && dstPort < 0x1_0000 && seqNumber < 0x1_0000_0000 && ackNumber < 0x1_0000_0000
  {
    var payload := Record(host, random);
    EthernetHeader(macs[6..], macs[..6]) + IpHeader(src, dst, TCP, 20 + |payload|, ident)
    + TcpHeader(srcPort, dstPort, seqNumber, ackNumber, flags) + payload
  }

  /** The payload the job carries, extracted and scanned, names the host the generator was asked for. */
  lemma FrameNamesHost(macs: bytes, src: bytes, dst: bytes, ident: nat, srcPort: nat, dstPort: nat,
                       seqNumber: nat, ackNumber: nat, flags: byte, host: bytes, random: bytes)
    requires |macs| == 12 && |src| == 4 && |dst| == 4 && ident < 0x1_0000 && |host| <= MAX_HOST && |random| == 32
    requires 40 + |Record(host, random)| < 0x1_0000
    requires srcPort < 0x1_0000 && dstPort < 0x1_0000 && seqNumber < 0x1_0000_0000 && ackNumber < 0x1_0000_0000
    ensures var data := HelloFrame(macs, src, dst, ident, srcPort, dstPort, seqNumber, ackNumber, flags, host, random);
            && Parse(data).Some? && Parse(data).value.hasTcp
            && |data| > 14 + data[14] as int % 16 * 4 + 12
            && var payload := JobPayload(data, Parse(data).value);
               Extract(payload) == Some(host) && Scan(payload) == Found(host)
  {
    var payload := Record(host, random);
    var data := HelloFrame(macs, src, dst, ident, srcPort, dstPort, seqNumber, ackNumber, flags, host, random);
    ParseUndoesTcpFrame(macs, src, dst, ident, srcPort, dstPort, seqNumber, ackNumber, flags, payload);
    hide Parse, Record, Extract, Scan, IpHeader, TcpHeader, EthernetHeader;
    JobFindsParsersPayload(data);
    ExtractUndoesRecord(host, random, []);
    assert payload + [] == payload;
    ScanFollowsExtract(payload);
  }
}
