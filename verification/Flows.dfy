/** Five-tuples, flow keys, their direction-independent forms, and the hash every routing decision uses. */
module Flows {
  import opened Bytes

  datatype FiveTuple = FiveTuple(srcIp: int, dstIp: int, srcPort: int, dstPort: int, protocol: int) {
    function Reverse(): FiveTuple {
      FiveTuple(dstIp, srcIp, dstPort, srcPort, protocol)
    }

    function Canonical(): FiveTuple {
      if srcIp < dstIp || (srcIp == dstIp && srcPort <= dstPort) then this else Reverse()
    }
  }

  /** Two five-tuples have the same canonical form exactly when they are the same flow, in either direction. */
  lemma SameCanonicalTupleIff(a: FiveTuple, b: FiveTuple)
    ensures a.Canonical() == b.Canonical() <==> b == a || b == a.Reverse()
    ensures a.Canonical().Canonical() == a.Canonical()
  {
  }

  /** std::variant<IPv4Addr, IPv6Address>. */
  datatype IpAddress = V4(ip: int) | V6(octets: bytes)

  /** Lexicographic order of std::array<uint8_t, 16>. */
  predicate OctetsLess(a: bytes, b: bytes) {
    if b == [] then false
    else if a == [] then true
    else a[0] < b[0] || (a[0] == b[0] && OctetsLess(a[1..], b[1..]))
  }

  predicate AddressLess(a: IpAddress, b: IpAddress) {
    match (a, b)
    case (V4(x), V4(y)) => x < y
    case (V6(x), V6(y)) => OctetsLess(x, y)
    case (V4(_), V6(_)) => true
    case (V6(_), V4(_)) => false
  }

  datatype FlowKey = FlowKey(src: IpAddress, dst: IpAddress, srcPort: int, dstPort: int, protocol: int) {
    function Reverse(): FlowKey {
      FlowKey(dst, src, dstPort, srcPort, protocol)
    }

    function Canonical(): FlowKey {
      if AddressLess(src, dst) || (src == dst && srcPort <= dstPort) then this else Reverse()
    }
  }

  function KeyOfTuple(t: FiveTuple): FlowKey {
    FlowKey(V4(t.srcIp), V4(t.dstIp), t.srcPort, t.dstPort, t.protocol)
  }

  lemma {:induction false} OctetsOrderTotal(a: bytes, b: bytes)
    ensures !(OctetsLess(a, b) && OctetsLess(b, a))
    ensures OctetsLess(a, b) || OctetsLess(b, a) || a == b
    ensures a == b ==> !OctetsLess(a, b)
  {
    if a != [] && b != [] {
      OctetsOrderTotal(a[1..], b[1..]);
      if a[0] == b[0] && a[1..] == b[1..] {
        assert a == [a[0]] + a[1..];
        assert b == [b[0]] + b[1..];
      }
    }
  }

  lemma AddressOrderTotal(a: IpAddress, b: IpAddress)
    ensures !(AddressLess(a, b) && AddressLess(b, a))
    ensures AddressLess(a, b) || AddressLess(b, a) || a == b
    ensures a == b ==> !AddressLess(a, b)
  {
    if a.V6? && b.V6? { OctetsOrderTotal(a.octets, b.octets); }
  }

  /** The canonical key forgets direction and nothing else. */
  lemma CanonicalForgetsDirection(k: FlowKey)
    ensures k.Reverse().Canonical() == k.Canonical()
    ensures k.Canonical().Canonical() == k.Canonical()
    ensures k.Canonical() == k || k.Canonical() == k.Reverse()
  {
    AddressOrderTotal(k.src, k.dst);
  }

  /** Two keys have the same canonical form exactly when they are the same flow, in either direction. */
  lemma SameCanonicalIffSameFlow(k1: FlowKey, k2: FlowKey)
    ensures k1.Canonical() == k2.Canonical() <==> k2 == k1 || k2 == k1.Reverse()
  {
    CanonicalForgetsDirection(k1);
    CanonicalForgetsDirection(k2);
  }

  /** A parsed packet's identity: the five-tuple used for routing and the flow key used for tracking. */
  datatype Identity = Identity(tuple: FiveTuple, key: FlowKey)

  /** createPacketJob for IPv4 packets. */
  function Ipv4Identity(t: FiveTuple): Identity {
    Identity(t, KeyOfTuple(t))
  }

  /** createPacketJob for IPv6 packets: the 32-bit addresses of the tuple stay zero. */
  function Ipv6Identity(src: bytes, dst: bytes, srcPort: int, dstPort: int, protocol: int): Identity {
    Identity(FiveTuple(0, 0, srcPort, dstPort, protocol), FlowKey(V6(src), V6(dst), srcPort, dstPort, protocol))
  }

  predicate FromPacket(id: Identity) {
    || id == Ipv4Identity(id.tuple)
    || (id.key.src.V6? && id.key.dst.V6?
        && id == Ipv6Identity(id.key.src.octets, id.key.dst.octets, id.key.srcPort, id.key.dstPort, id.key.protocol))
  }

  /**
   Packets of one flow, IPv4 or IPv6 and in either direction, have one canonical five-tuple, so any hash of
   the canonical tuple is the same for both.
   */
  lemma SameFlowSameTuple(a: Identity, b: Identity)
    requires FromPacket(a) && FromPacket(b)
    requires a.key.Canonical() == b.key.Canonical()
    ensures a.tuple.Canonical() == b.tuple.Canonical()
  {
    SameCanonicalIffSameFlow(a.key, b.key);
  }
}
