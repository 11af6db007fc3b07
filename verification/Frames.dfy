/** Ethernet, IPv4, IPv6, TCP and UDP: the frame parser, the frame builders it must undo, and the job builder. */
module Frames {
  import opened Bytes

  const ETHERTYPE_IPV4: nat := 0x0800
  const ETHERTYPE_IPV6: nat := 0x86DD
  const ICMP: nat := 1
  const TCP: nat := 6
  const UDP: nat := 17
  const ICMPV6: nat := 58
  const NO_NEXT_HEADER: nat := 59
  const AUTHENTICATION: nat := 51
  const FRAGMENT: nat := 44

  datatype Parsed = Parsed(
    etherType: nat,
    hasIp: bool,
    hasIpv6: bool,
    srcIp: nat,                 // 32-bit address as memcpy leaves it on a little-endian host
    dstIp: nat,
    srcIpv6: bytes,
    dstIpv6: bytes,
    protocol: nat,
    extUnsupported: bool,
    hasTcp: bool,
    hasUdp: bool,
    hasIcmp: bool,
    srcPort: nat,
    dstPort: nat,
    seqNumber: nat,
    ackNumber: nat,
    tcpFlags: nat,
    payload: bytes)

  const Unparsed: Parsed := Parsed(0, false, false, 0, 0, [], [], 0, false, false, false, false, 0, 0, 0, 0, 0, [])

  /** A parse in progress: the record filled so far and the offset of the next header. */
  datatype Progress = Progress(parsed: Parsed, offset: nat)

  /** Little-endian 32-bit read. */
  function U32Le(b: bytes, i: nat): (n: nat)
    requires i + 4 <= |b|
  {
    b[i] as int + b[i + 1] as int * 256 + b[i + 2] as int * 0x1_0000 + b[i + 3] as int * 0x100_0000
  }

  function ParseIpv4(data: bytes, p: Progress): (r: Option<Progress>)
    ensures r.Some? ==> p.offset + 20 <= r.value.offset <= |data|
  {
    var o := p.offset;
    if |data| < o + 20 then None
    else
      var headerLength := data[o] as int % 16 * 4;
      if data[o] as int / 16 != 4 || headerLength < 20 || |data| < o + headerLength then None
      else
        Some(Progress(p.parsed.(protocol := data[o + 9], srcIp := U32Le(data, o + 12), dstIp := U32Le(data, o + 16),
                                hasIp := true),
                      o + headerLength))
  }

  function ParseTcp(data: bytes, p: Progress): (r: Option<Progress>)
    ensures r.Some? ==> p.offset + 20 <= r.value.offset <= |data|
  {
    var o := p.offset;
    if |data| < o + 20 then None
    else
      var headerLength := data[o + 12] as int / 16 * 4;
      if headerLength < 20 || |data| < o + headerLength then None
      else
        Some(Progress(p.parsed.(srcPort := U16(data, o), dstPort := U16(data, o + 2), seqNumber := U32(data, o + 4),
                                ackNumber := U32(data, o + 8), tcpFlags := data[o + 13], hasTcp := true),
                      o + headerLength))
  }

  function ParseUdp(data: bytes, p: Progress): (r: Option<Progress>)
    ensures r.Some? ==> r.value.offset == p.offset + 8 <= |data|
  {
    var o := p.offset;
    if |data| < o + 8 || U16(data, o + 4) < 8 || o + U16(data, o + 4) > |data| then None
    else Some(Progress(p.parsed.(srcPort := U16(data, o), dstPort := U16(data, o + 2), hasUdp := true), o + 8))
  }

  function ParseIcmp(data: bytes, p: Progress): (r: Option<Progress>)
    ensures r.Some? ==> r.value.offset == p.offset + 8 <= |data|
  {
    if |data| < p.offset + 8 then None else Some(Progress(p.parsed.(hasIcmp := true), p.offset + 8))
  }

  // ---------------------------------------------------------------- IPv6 extension headers

  predicate IsExtension(next: nat) {
    next == 0 || next == 43 || next == FRAGMENT || next == 60 || next == AUTHENTICATION
  }

  const MAX_EXT_HEADERS: nat := 10

  /** Where the walk over extension headers stops: the protocol found, its offset, and whether it gave up. */
  datatype Walk = Walk(protocol: nat, offset: nat, unsupported: bool)

  /** Size of a variable-length extension header, from its length field. */
  function ExtensionSize(next: nat, units: byte): nat {
    if next == AUTHENTICATION then (units as int + 2) * 4 else (units as int + 1) * 8
  }

  /** walkIPv6ExtHeaders with `left` headers still allowed. */
  function WalkFrom(data: bytes, offset: nat, next: nat, left: nat): (w: Walk)
    requires offset <= |data|
    ensures offset <= w.offset <= |data|
    decreases left
  {
    if left == 0 || !IsExtension(next) then Walk(next, offset, false)
    else if next == FRAGMENT then
      if offset + 8 > |data| then Walk(NO_NEXT_HEADER, offset, true)
      else if U16(data, offset + 2) / 8 > 0 then Walk(NO_NEXT_HEADER, offset + 8, true)
      else WalkFrom(data, offset + 8, data[offset], left - 1)
    else if offset + 2 > |data| then Walk(NO_NEXT_HEADER, offset, true)
    else
      var size := ExtensionSize(next, data[offset + 1]);
      if offset + size > |data| then Walk(NO_NEXT_HEADER, offset, true)
      else WalkFrom(data, offset + size, data[offset], left - 1)
  }

  /** walkIPv6ExtHeaders: the bounded loop, never moving past the end of the data on any input. */
  method WalkIpv6ExtHeaders(data: bytes, start: nat, firstNext: nat) returns (w: Walk)
    requires start <= |data|
    ensures w == WalkFrom(data, start, firstNext, MAX_EXT_HEADERS)
    ensures start <= w.offset <= |data|
  {
    var offset := start;
    var next: nat := firstNext;
    var count: nat := 0;
    while count < MAX_EXT_HEADERS && IsExtension(next)
      invariant count <= MAX_EXT_HEADERS && start <= offset <= |data|
      invariant WalkFrom(data, start, firstNext, MAX_EXT_HEADERS)
                == WalkFrom(data, offset, next, MAX_EXT_HEADERS - count)
    {
      if next == FRAGMENT {
        if offset + 8 > |data| { return Walk(NO_NEXT_HEADER, offset, true); }
        var fragmentOffset := U16(data, offset + 2) / 8;
        if fragmentOffset > 0 { return Walk(NO_NEXT_HEADER, offset + 8, true); }
        next := data[offset];
        offset := offset + 8;
      } else {
        if offset + 2 > |data| { return Walk(NO_NEXT_HEADER, offset, true); }
        var total := if next == AUTHENTICATION then (data[offset + 1] as int + 2) * 4
          else (data[offset + 1] as int + 1) * 8;
        if offset + total > |data| || total < 8 { return Walk(NO_NEXT_HEADER, offset, true); }
        next := data[offset];
        offset := offset + total;
      }
      count := count + 1;
    }
    w := Walk(next, offset, false);
  }

  /** An extension header as sections 4.3 to 4.6 of RFC 8200 and section 2.2 of RFC 4302 lay it out. */
  datatype Extension =
    | OptionsLike(kind: nat, units: byte, body: bytes)      // hop-by-hop (0), routing (43), destination options (60)
    | InitialFragment(reserved: byte, low: byte, id: bytes) // fragment offset zero; low holds the flag bits
    | Authentication(units: byte, body: bytes)
  {
    predicate WellFormed() {
      match this
      case OptionsLike(kind, units, body) => (kind == 0 || kind == 43 || kind == 60)
        && |body| == (units as int + 1) * 8 - 2
      case InitialFragment(_, low, id) => low < 8 && |id| == 4
      case Authentication(units, body) => |body| == (units as int + 2) * 4 - 2
    }

    function Number(): byte
      requires WellFormed()
    {
      match this
      case OptionsLike(kind, _, _) => kind
      case InitialFragment(_, _, _) => FRAGMENT
      case Authentication(_, _) => AUTHENTICATION
    }

    function Encode(next: byte): bytes {
      match this
      case OptionsLike(_, units, body) => [next, units] + body
      case InitialFragment(reserved, low, id) => [next, reserved, 0, low] + id
      case Authentication(units, body) => [next, units] + body
    }
  }

  predicate AllWellFormed(chain: seq<Extension>) {
    forall i :: 0 <= i < |chain| ==> chain[i].WellFormed()
  }

  /** Next-header value that announces the chain: its first header, or the upper-layer protocol. */
  function First(chain: seq<Extension>, protocol: byte): byte
    requires AllWellFormed(chain)
  {
    if chain == [] then protocol else chain[0].Number()
  }

  function EncodeChain(chain: seq<Extension>, protocol: byte): bytes
    requires AllWellFormed(chain)
  {
    if chain == [] then [] else chain[0].Encode(First(chain[1..], protocol)) + EncodeChain(chain[1..], protocol)
  }

  /** One header is stepped over exactly. */
  lemma WalkOne(data: bytes, offset: nat, e: Extension, next: byte, left: nat)
    requires e.WellFormed() && left > 0
    requires offset + |e.Encode(next)| <= |data| && data[offset..offset + |e.Encode(next)|] == e.Encode(next)
    ensures WalkFrom(data, offset, e.Number(), left) == WalkFrom(data, offset + |e.Encode(next)|, next, left - 1)
  {
    var x := e.Encode(next);
    var y := data[offset..offset + |x|];
    assert data[offset] == y[0] == next && data[offset + 1] == y[1];
    match e
    case InitialFragment(_, low, _) =>
      assert data[offset + 2] == y[2] == 0 && data[offset + 3] == y[3] == low;
      WalkFragment(data, offset, left);
    case OptionsLike(kind, units, body) =>
      assert data[offset + 1] == units;
      WalkSized(data, offset, kind, left);
    case Authentication(units, body) =>
      assert data[offset + 1] == units;
      WalkSized(data, offset, AUTHENTICATION, left);
  }

  lemma WalkFragment(data: bytes, offset: nat, left: nat)
    requires left > 0 && offset + 8 <= |data| && data[offset + 2] == 0 && data[offset + 3] < 8
    ensures WalkFrom(data, offset, FRAGMENT, left) == WalkFrom(data, offset + 8, data[offset], left - 1)
  {
    assert U16(data, offset + 2) == data[offset + 3] as int;
  }

  lemma WalkSized(data: bytes, offset: nat, kind: nat, left: nat)
    requires left > 0 && IsExtension(kind) && kind != FRAGMENT
    requires offset + 2 <= |data| && offset + ExtensionSize(kind, data[offset + 1]) <= |data|
    ensures WalkFrom(data, offset, kind, left)
         == WalkFrom(data, offset + ExtensionSize(kind, data[offset + 1]), data[offset], left - 1)
  {
  }

  lemma Consecutive(data: bytes, offset: nat, x: bytes, y: bytes)
    requires offset + |x + y| <= |data| && data[offset..offset + |x + y|] == x + y
    ensures data[offset..offset + |x|] == x
    ensures data[offset + |x|..offset + |x| + |y|] == y
  {
    var all := data[offset..offset + |x + y|];
    assert data[offset..offset + |x|] == all[..|x|];
    assert data[offset + |x|..offset + |x| + |y|] == all[|x|..];
  }

  lemma WalkEndsAtTransport(data: bytes, offset: nat, protocol: byte, left: nat)
    requires offset <= |data| && !IsExtension(protocol)
    ensures WalkFrom(data, offset, protocol, left) == Walk(protocol, offset, false)
  {
  }

  /** The walk finds the right protocol and offset behind any chain of at most as many headers as are allowed. */
  lemma {:induction false} WalkUndoesChain(data: bytes, offset: nat, chain: seq<Extension>, protocol: byte, left: nat)
    requires AllWellFormed(chain) && |chain| <= left && !IsExtension(protocol)
    requires offset + |EncodeChain(chain, protocol)| <= |data|
    requires data[offset..offset + |EncodeChain(chain, protocol)|] == EncodeChain(chain, protocol)
    ensures WalkFrom(data, offset, First(chain, protocol), left)
         == Walk(protocol, offset + |EncodeChain(chain, protocol)|, false)
    decreases |chain|
  {
    hide WalkFrom, IsExtension, Extension.Encode, Extension.Number;
    if chain == [] {
      WalkEndsAtTransport(data, offset, protocol, left);
    } else {
      var x := chain[0].Encode(First(chain[1..], protocol));
      var tail := EncodeChain(chain[1..], protocol);
      Consecutive(data, offset, x, tail);
      WalkOne(data, offset, chain[0], First(chain[1..], protocol), left);
      WalkUndoesChain(data, offset + |x|, chain[1..], protocol, left - 1);
    }
  }

  /** The walk over a chain, whatever comes behind it. */
  lemma {:induction false} WalkOverChain(data: bytes, offset: nat, chain: seq<Extension>, next: byte, left: nat)
    requires AllWellFormed(chain) && |chain| <= left && ChainAt(data, offset, chain, next)
    ensures WalkFrom(data, offset, First(chain, next), left)
         == WalkFrom(data, offset + |EncodeChain(chain, next)|, next, left - |chain|)
    decreases |chain|
  {
    hide WalkFrom, Extension.Encode, Extension.Number;
    if chain != [] {
      var x := chain[0].Encode(First(chain[1..], next));
      Consecutive(data, offset, x, EncodeChain(chain[1..], next));
      WalkOne(data, offset, chain[0], First(chain[1..], next), left);
      WalkOverChain(data, offset + |x|, chain[1..], next, left - 1);
    }
  }

  /** The chain lies at an offset of the data. */
  predicate ChainAt(data: bytes, offset: nat, chain: seq<Extension>, next: byte)
    requires AllWellFormed(chain)
  {
    var x := EncodeChain(chain, next);
    offset + |x| <= |data| && data[offset..offset + |x|] == x
  }

  /** An extension header that does not fit the data, or that belongs to a fragment other than the first. */
  predicate Unsupported(data: bytes, offset: nat, next: nat) {
    if next == FRAGMENT then offset + 8 > |data| || U16(data, offset + 2) / 8 > 0
    else IsExtension(next) && (offset + 2 > |data| || offset + ExtensionSize(next, data[offset + 1]) > |data|)
  }

  /** An unsupported header lies behind a chain that starts here and is shorter than the walk may go. */
  ghost predicate UnsupportedBehind(data: bytes, offset: nat, next: nat, left: nat) {
    exists chain: seq<Extension>, last: byte ::
      && AllWellFormed(chain) && |chain| < left && ChainAt(data, offset, chain, last) && First(chain, last) == next
      && Unsupported(data, offset + |EncodeChain(chain, last)|, last)
  }

  /** The extension header found at an offset. */
  function HeaderFound(data: bytes, offset: nat, next: byte): (e: Extension)
    requires offset <= |data| && IsExtension(next) && !Unsupported(data, offset, next)
  {
    if next == FRAGMENT then InitialFragment(data[offset + 1], data[offset + 3], data[offset + 4..offset + 8])
    else
      var body := data[offset + 2..offset + ExtensionSize(next, data[offset + 1])];
      if next == AUTHENTICATION then Authentication(data[offset + 1], body)
        else OptionsLike(next, data[offset + 1], body)
  }

  lemma HeaderFoundEncodes(data: bytes, offset: nat, next: byte)
    requires offset <= |data| && IsExtension(next) && !Unsupported(data, offset, next)
    ensures var e := HeaderFound(data, offset, next);
            && e.WellFormed() && e.Number() == next
            && var x := e.Encode(data[offset]);
               offset + |x| <= |data| && data[offset..offset + |x|] == x
  {
    var e := HeaderFound(data, offset, next);
    if next == FRAGMENT {
      assert data[offset + 2] == 0 && data[offset + 3] < 8;
      assert data[offset..offset + 8] == e.Encode(data[offset]);
    } else {
      var size := ExtensionSize(next, data[offset + 1]);
      assert data[offset..offset + size] == [data[offset], data[offset + 1]] + data[offset + 2..offset + size];
    }
  }

  /** An extension header lies at an offset of the data, and announces the next. */
  predicate HeaderAtOffset(data: bytes, offset: nat, e: Extension, next: byte) {
    e.WellFormed() && offset + |e.Encode(next)| <= |data| && data[offset..offset + |e.Encode(next)|] == e.Encode(next)
  }

  lemma ChainGrows(data: bytes, offset: nat, e: Extension, chain: seq<Extension>, last: byte)
    requires AllWellFormed(chain) && HeaderAtOffset(data, offset, e, First(chain, last))
    requires ChainAt(data, offset + |e.Encode(First(chain, last))|, chain, last)
    ensures AllWellFormed([e] + chain) && ChainAt(data, offset, [e] + chain, last)
    ensures First([e] + chain, last) == e.Number()
    ensures |EncodeChain([e] + chain, last)| == |e.Encode(First(chain, last))| + |EncodeChain(chain, last)|
  {
    var x := e.Encode(First(chain, last));
    var y := EncodeChain(chain, last);
    assert ([e] + chain)[1..] == chain;
    assert EncodeChain([e] + chain, last) == x + y;
    hide EncodeChain, Extension.Encode;
    SlicesJoin(data, offset, |x|, |y|);
  }

  lemma SlicesJoin(data: bytes, offset: nat, m: nat, n: nat)
    requires offset + m + n <= |data|
    ensures data[offset..offset + m + n] == data[offset..offset + m] + data[offset + m..offset + m + n]
  {
  }

  /** A walk that gives up, but not here, steps over a header first. */
  lemma WalkMeetsHeader(data: bytes, offset: nat, next: byte, left: nat) returns (e: Extension, after: byte)
    requires offset <= |data| && WalkFrom(data, offset, next, left).unsupported && !Unsupported(data, offset, next)
    ensures left > 0 && HeaderAtOffset(data, offset, e, after) && e.Number() == next
    ensures WalkFrom(data, offset + |e.Encode(after)|, after, left - 1).unsupported
  {
    HeaderFoundEncodes(data, offset, next);
    e, after := HeaderFound(data, offset, next), data[offset];
    WalkOne(data, offset, e, after, left);
    hide HeaderFound, Extension.Encode;
  }

  lemma StopHere(data: bytes, offset: nat, next: byte, left: nat)
    requires offset <= |data| && WalkFrom(data, offset, next, left).unsupported
    ensures AllWellFormed([]) && ChainAt(data, offset, [], next) && First([], next) == next
            && |EncodeChain([], next)| == 0
    ensures left > 0
  {
  }

  /** What stops the walk, found by following it. */
  lemma {:induction false} StopIsUnsupported(data: bytes, offset: nat, next: byte, left: nat)
    returns (chain: seq<Extension>, last: byte)
    requires offset <= |data| && WalkFrom(data, offset, next, left).unsupported
    ensures AllWellFormed(chain) && |chain| < left && ChainAt(data, offset, chain, last) && First(chain, last) == next
    ensures Unsupported(data, offset + |EncodeChain(chain, last)|, last)
    decreases left, 0
  {
    hide *;
    StopHere(data, offset, next, left);
    if Unsupported(data, offset, next) {
      chain, last := [], next;
    } else {
      var e, after := WalkMeetsHeader(data, offset, next, left);
      chain, last := StopBehindHeader(data, offset, e, after, left);
    }
  }

  lemma {:induction false} StopBehindHeader(data: bytes, offset: nat, e: Extension, after: byte, left: nat)
    returns (chain: seq<Extension>, last: byte)
    requires left > 0 && HeaderAtOffset(data, offset, e, after)
    requires WalkFrom(data, offset + |e.Encode(after)|, after, left - 1).unsupported
    ensures AllWellFormed(chain) && |chain| < left && ChainAt(data, offset, chain, last)
            && First(chain, last) == e.Number()
    ensures Unsupported(data, offset + |EncodeChain(chain, last)|, last)
    decreases left - 1, 1
  {
    hide Extension.Encode, EncodeChain, WalkFrom, ChainAt, Unsupported, First, Extension.Number, Extension.WellFormed;
    var rest;
    rest, last := StopIsUnsupported(data, offset + |e.Encode(after)|, after, left - 1);
    ChainGrows(data, offset, e, rest, last);
    chain := [e] + rest;
  }

  /** The walk ends without a transport, as one that has no next header. */
  predicate GivesUp(data: bytes, offset: nat, next: nat, left: nat) {
    && offset <= |data|
    && var w := WalkFrom(data, offset, next, left);
       w.unsupported && w.protocol == NO_NEXT_HEADER
  }

  lemma UnsupportedStops(data: bytes, offset: nat, next: byte, left: nat)
    requires offset <= |data| && left > 0 && Unsupported(data, offset, next)
    ensures GivesUp(data, offset, next, left)
  {
  }

  /**
   Exactly when the walk gives up: behind at most so many whole headers less one comes one that is cut off, or one
   of a later fragment. It then reports protocol 59, no next header, and not 0 as its comment says.
   */
  lemma WalkGivesUpIff(data: bytes, offset: nat, next: byte, left: nat)
    requires offset <= |data|
    ensures WalkFrom(data, offset, next, left).unsupported <==> UnsupportedBehind(data, offset, next, left)
    ensures WalkFrom(data, offset, next, left).unsupported ==>
              WalkFrom(data, offset, next, left).protocol == NO_NEXT_HEADER
  {
    if WalkFrom(data, offset, next, left).unsupported {
      var chain, last := StopIsUnsupported(data, offset, next, left);
      BehindChainStops(data, offset, chain, last, left);
      BehindWitness(data, offset, chain, last, left);
    }
    if UnsupportedBehind(data, offset, next, left) { BehindStops(data, offset, next, left); }
    hide WalkFrom, UnsupportedBehind, ChainAt, Unsupported, EncodeChain, First, AllWellFormed;
  }

  lemma BehindWitness(data: bytes, offset: nat, chain: seq<Extension>, last: byte, left: nat)
    requires AllWellFormed(chain) && |chain| < left && ChainAt(data, offset, chain, last)
    requires Unsupported(data, offset + |EncodeChain(chain, last)|, last)
    ensures UnsupportedBehind(data, offset, First(chain, last), left)
  {
    hide EncodeChain, First, Unsupported, ChainAt;
  }

  lemma BehindStops(data: bytes, offset: nat, next: byte, left: nat)
    requires UnsupportedBehind(data, offset, next, left)
    ensures GivesUp(data, offset, next, left)
  {
    hide EncodeChain, First, AllWellFormed, Unsupported, WalkFrom, ChainAt, IsExtension, GivesUp;
    var chain: seq<Extension>, last: byte :|
      && AllWellFormed(chain) && |chain| < left && ChainAt(data, offset, chain, last) && First(chain, last) == next
      && Unsupported(data, offset + |EncodeChain(chain, last)|, last);
    BehindChainStops(data, offset, chain, last, left);
  }

  lemma BehindChainStops(data: bytes, offset: nat, chain: seq<Extension>, last: byte, left: nat)
    requires AllWellFormed(chain) && |chain| < left && ChainAt(data, offset, chain, last)
    requires Unsupported(data, offset + |EncodeChain(chain, last)|, last)
    ensures GivesUp(data, offset, First(chain, last), left)
  {
    hide *;
    ChainFits(data, offset, chain, last);
    var stop := offset + |EncodeChain(chain, last)|;
    var rest: nat := left - |chain|;
    UnsupportedStops(data, stop, last, rest);
    WalkOverChain(data, offset, chain, last, left);
    SameWalk(data, offset, First(chain, last), left, stop, last, rest);
  }

  lemma SameWalk(data: bytes, offset: nat, next: nat, left: nat, stop: nat, last: nat, rest: nat)
    requires offset <= |data| && stop <= |data|
    requires WalkFrom(data, offset, next, left) == WalkFrom(data, stop, last, rest)
    requires GivesUp(data, stop, last, rest)
    ensures GivesUp(data, offset, next, left)
  {
    hide WalkFrom;
  }

  lemma ChainFits(data: bytes, offset: nat, chain: seq<Extension>, last: byte)
    requires AllWellFormed(chain) && ChainAt(data, offset, chain, last)
    ensures offset + |EncodeChain(chain, last)| <= |data|
  {
    hide EncodeChain;
  }

  // ---------------------------------------------------------------- whole frames

  function ParseIpv6(data: bytes, p: Progress): (r: Option<Progress>)
    ensures r.Some? ==> p.offset + 40 <= r.value.offset <= |data|
  {
    var o := p.offset;
    if |data| < o + 40 || data[o] as int / 16 != 6 then None
    else
      var w := WalkFrom(data, o + 40, data[o + 6], MAX_EXT_HEADERS);
      Some(Progress(p.parsed.(srcIpv6 := data[o + 8..o + 24], dstIpv6 := data[o + 24..o + 40], hasIp := true,
                              hasIpv6 := true,
                              protocol := w.protocol, extUnsupported := w.unsupported), w.offset))
  }

  /** The transport parser the dispatcher picks. */
  function ParseTransport(data: bytes, p: Progress, icmp: nat): (r: Option<Progress>)
    requires p.offset <= |data|
    ensures r.Some? ==> p.offset <= r.value.offset <= |data|
  {
    if p.parsed.protocol == TCP then ParseTcp(data, p)
    else if p.parsed.protocol == UDP then ParseUdp(data, p)
    else if p.parsed.protocol == icmp then ParseIcmp(data, p)
    else Some(p)
  }

  /** PacketParser::parse */
  function ParseProgress(data: bytes): (r: Option<Progress>)
    ensures r.Some? ==> 14 <= r.value.offset <= |data|
  {
    if |data| < 14 then None
    else
      var start := Progress(Unparsed.(etherType := U16(data, 12)), 14);
      if start.parsed.etherType == ETHERTYPE_IPV4 then
        var ip := ParseIpv4(data, start);
        if ip.None? then None else ParseTransport(data, ip.value, ICMP)
      else if start.parsed.etherType == ETHERTYPE_IPV6 then
        var ip := ParseIpv6(data, start);
        if ip.None? then None else ParseTransport(data, ip.value, ICMPV6)
      else Some(start)
  }

  function Parse(data: bytes): Option<Parsed> {
    var r := ParseProgress(data);
    if r.None? then None else Some(r.value.parsed.(payload := data[r.value.offset..]))
  }

  /**
   The shortest such input: a frame that ends with an IPv6 header announcing an extension header of which nothing is
   left. It is accepted as a packet without transport header.
   */
  lemma TruncationReportsNoNextHeader(data: bytes)
    requires |data| == 54 && U16(data, 12) == ETHERTYPE_IPV6 && data[14] as int / 16 == 6
             && IsExtension(data[20] as nat)
    ensures var r := Parse(data);
            r.Some? && r.value.protocol == 59 && r.value.extUnsupported && r.value.payload == []
  {
    assert WalkFrom(data, 54, data[20], MAX_EXT_HEADERS) == Walk(59, 54, true);
    var start := Progress(Unparsed.(etherType := U16(data, 12)), 14);
    assert ParseIpv6(data, start).Some? && ParseIpv6(data, start).value.offset == 54;
    hide WalkFrom, ParseIpv4, ParseTcp, ParseUdp, ParseIcmp;
  }

  /** PacketParser::parse, advancing one offset through the headers. */
  method ParsePacket(data: bytes) returns (r: Option<Parsed>)
    ensures r == Parse(data)
  {
    hide ParseIpv4, ParseTransport, WalkFrom;
    if |data| < 14 { return None; }
    var progress := Some(Progress(Unparsed.(etherType := U16(data, 12)), 14));
    var icmp := ICMP;
    if progress.value.parsed.etherType == ETHERTYPE_IPV4 {
      progress := ParseIpv4(data, progress.value);
      if progress.None? { return None; }
      progress := ParseTransport(data, progress.value, ICMP);
    } else if progress.value.parsed.etherType == ETHERTYPE_IPV6 {
      var o := progress.value.offset;
      if |data| < o + 40 || data[o] as int / 16 != 6 { return None; }
      var w := WalkIpv6ExtHeaders(data, o + 40, data[o + 6]);
      progress := Some(Progress(progress.value.parsed.(
        srcIpv6 := data[o + 8..o + 24], dstIpv6 := data[o + 24..o + 40], hasIp := true, hasIpv6 := true,
        protocol := w.protocol, extUnsupported := w.unsupported), w.offset));
      progress := ParseTransport(data, progress.value, ICMPV6);
    }
    if progress.None? { return None; }
    r := Some(progress.value.parsed.(payload := data[progress.value.offset..]));
  }

  // ---------------------------------------------------------------- the builders

  function EthernetHeader(src: bytes, dst: bytes): bytes {
    dst + src + Pack16(ETHERTYPE_IPV4)
  }

  /** create_ip_header; ident is the random identification field. */
  function IpHeader(src: bytes, dst: bytes, protocol: byte, payloadLength: nat, ident: nat): (h: bytes)
    requires |src| == 4 && |dst| == 4 && 20 + payloadLength < 0x1_0000 && ident < 0x1_0000
  {
    var versionAndTos: bytes := [0x45, 0];
    var ttlProtocolChecksum: bytes := [64, protocol, 0, 0];
    versionAndTos + Pack16(20 + payloadLength) + Pack16(ident) + Pack16(0x4000) + ttlProtocolChecksum + src + dst
  }

  function TcpHeader(srcPort: nat, dstPort: nat, seqNumber: nat, ackNumber: nat, flags: byte): bytes
    requires srcPort < 0x1_0000 && dstPort < 0x1_0000 && seqNumber < 0x1_0000_0000 && ackNumber < 0x1_0000_0000
  {
    var offsetAndFlags: bytes := [80, flags];
    var checksumAndUrgent: bytes := [0, 0, 0, 0];
    Pack16(srcPort) + Pack16(dstPort) + Pack32(seqNumber) + Pack32(ackNumber) + offsetAndFlags + Pack16(65535)
      + checksumAndUrgent
  }

  function UdpHeader(srcPort: nat, dstPort: nat, payloadLength: nat): bytes
    requires srcPort < 0x1_0000 && dstPort < 0x1_0000 && 8 + payloadLength < 0x1_0000
  {
    var checksum: bytes := [0, 0];
    Pack16(srcPort) + Pack16(dstPort) + Pack16(8 + payloadLength) + checksum
  }

  /** The parser's address value of four address bytes. */
  function Address(b: bytes): nat
    requires |b| == 4
  {
    U32Le(b, 0)
  }

  /** A header found at offset o is read back byte by byte. */
  lemma HeaderAt(data: bytes, o: nat, h: bytes)
    requires o + |h| <= |data| && data[o..o + |h|] == h
    ensures forall i {:trigger h[i]} :: 0 <= i < |h| ==> data[o + i] == h[i]
  {
    forall i | 0 <= i < |h|
      ensures data[o + i] == h[i]
    {
      assert data[o..o + |h|][i] == data[o + i];
    }
  }

  lemma IpHeaderLayout(src: bytes, dst: bytes, protocol: byte, payloadLength: nat, ident: nat)
    requires |src| == 4 && |dst| == 4 && 20 + payloadLength < 0x1_0000 && ident < 0x1_0000
    ensures var h := IpHeader(src, dst, protocol, payloadLength, ident);
            && |h| == 20 && h[0] == 0x45 && h[9] == protocol
            && U32Le(h, 12) == Address(src) && U32Le(h, 16) == Address(dst)
  {
  }

  lemma TcpHeaderLayout(srcPort: nat, dstPort: nat, seqNumber: nat, ackNumber: nat, flags: byte)
    requires srcPort < 0x1_0000 && dstPort < 0x1_0000 && seqNumber < 0x1_0000_0000 && ackNumber < 0x1_0000_0000
    ensures var h := TcpHeader(srcPort, dstPort, seqNumber, ackNumber, flags);
            && |h| == 20 && U16(h, 0) == srcPort && U16(h, 2) == dstPort && U32(h, 4) == seqNumber
               && U32(h, 8) == ackNumber
            && h[12] == 80 && h[13] == flags
  {
  }

  lemma UdpHeaderLayout(srcPort: nat, dstPort: nat, payloadLength: nat)
    requires srcPort < 0x1_0000 && dstPort < 0x1_0000 && 8 + payloadLength < 0x1_0000
    ensures var h := UdpHeader(srcPort, dstPort, payloadLength);
            |h| == 8 && U16(h, 0) == srcPort && U16(h, 2) == dstPort && U16(h, 4) == 8 + payloadLength
  {
  }

  /** The network layer of a built frame, whatever transport follows. */
  lemma ParseUndoesIpHeader(data: bytes, src: bytes, dst: bytes, protocol: byte, payloadLength: nat, ident: nat)
    requires |src| == 4 && |dst| == 4 && 20 + payloadLength < 0x1_0000 && ident < 0x1_0000
    requires 34 <= |data| && data[14..34] == IpHeader(src, dst, protocol, payloadLength, ident)
    ensures ParseIpv4(data, Progress(Unparsed.(etherType := ETHERTYPE_IPV4), 14))
         == Some(Progress(Unparsed.(etherType := ETHERTYPE_IPV4, protocol := protocol, srcIp := Address(src),
            dstIp := Address(dst), hasIp := true), 34))
  {
    var h := IpHeader(src, dst, protocol, payloadLength, ident);
    IpHeaderLayout(src, dst, protocol, payloadLength, ident);
    HeaderAt(data, 14, h);
    assert data[14] == h[0] && data[23] == h[9];
    assert data[26] == h[12] && data[27] == h[13] && data[28] == h[14] && data[29] == h[15];
    assert data[30] == h[16] && data[31] == h[17] && data[32] == h[18] && data[33] == h[19];
  }

  /**
   The parser recovers addresses, ports, sequence and acknowledgement numbers, flags and payload of every built TCP
   frame.
   */
  lemma ParseUndoesTcpFrame(macs: bytes, src: bytes, dst: bytes, ident: nat, srcPort: nat, dstPort: nat,
                            seqNumber: nat, ackNumber: nat, flags: byte, payload: bytes)
    requires |macs| == 12 && |src| == 4 && |dst| == 4 && 40 + |payload| < 0x1_0000 && ident < 0x1_0000
    requires srcPort < 0x1_0000 && dstPort < 0x1_0000 && seqNumber < 0x1_0000_0000 && ackNumber < 0x1_0000_0000
    ensures Parse(EthernetHeader(macs[6..], macs[..6]) + IpHeader(src, dst, TCP, 20 + |payload|, ident)
                  + TcpHeader(srcPort, dstPort, seqNumber, ackNumber, flags) + payload)
         == Some(Unparsed.(etherType := ETHERTYPE_IPV4, hasIp := true, protocol := TCP, srcIp := Address(src),
                           dstIp := Address(dst),
                           hasTcp := true, srcPort := srcPort, dstPort := dstPort, seqNumber := seqNumber,
                           ackNumber := ackNumber, tcpFlags := flags, payload := payload))
  {
    var eth := EthernetHeader(macs[6..], macs[..6]);
    var ip := IpHeader(src, dst, TCP, 20 + |payload|, ident);
    var h := TcpHeader(srcPort, dstPort, seqNumber, ackNumber, flags);
    var data := eth + ip + h + payload;
    IpHeaderLayout(src, dst, TCP, 20 + |payload|, ident);
    TcpHeaderLayout(srcPort, dstPort, seqNumber, ackNumber, flags);
    assert |eth| == 14 && U16(data, 12) == U16(eth, 12) == ETHERTYPE_IPV4;
    assert data[14..34] == ip && data[34..54] == h && data[54..] == payload;
    ParseUndoesIpHeader(data, src, dst, TCP, 20 + |payload|, ident);
    TcpAt(data, 34, h);
  }

  /** Transport fields are read relative to where the header is. */
  lemma TcpAt(data: bytes, o: nat, h: bytes)
    requires |h| == 20 && o + 20 <= |data| && data[o..o + 20] == h
    ensures U16(data, o) == U16(h, 0) && U16(data, o + 2) == U16(h, 2) && U32(data, o + 4) == U32(h, 4)
            && U32(data, o + 8) == U32(h, 8)
    ensures data[o + 12] == h[12] && data[o + 13] == h[13]
  {
    HeaderAt(data, o, h);
    assert data[o] == h[0] && data[o + 1] == h[1] && data[o + 2] == h[2] && data[o + 3] == h[3];
    assert data[o + 4] == h[4] && data[o + 5] == h[5] && data[o + 6] == h[6] && data[o + 7] == h[7];
    assert data[o + 8] == h[8] && data[o + 9] == h[9] && data[o + 10] == h[10] && data[o + 11] == h[11];
  }

  /** The same for every built UDP frame. */
  lemma ParseUndoesUdpFrame(macs: bytes, src: bytes, dst: bytes, ident: nat, srcPort: nat, dstPort: nat, payload: bytes)
    requires |macs| == 12 && |src| == 4 && |dst| == 4 && 28 + |payload| < 0x1_0000 && ident < 0x1_0000
    requires srcPort < 0x1_0000 && dstPort < 0x1_0000
    ensures Parse(EthernetHeader(macs[6..], macs[..6]) + IpHeader(src, dst, UDP, 8 + |payload|, ident)
                  + UdpHeader(srcPort, dstPort, |payload|) + payload)
         == Some(Unparsed.(etherType := ETHERTYPE_IPV4, hasIp := true, protocol := UDP, srcIp := Address(src),
                           dstIp := Address(dst),
                           hasUdp := true, srcPort := srcPort, dstPort := dstPort, payload := payload))
  {
    var eth := EthernetHeader(macs[6..], macs[..6]);
    var ip := IpHeader(src, dst, UDP, 8 + |payload|, ident);
    var h := UdpHeader(srcPort, dstPort, |payload|);
    var data := eth + ip + h + payload;
    IpHeaderLayout(src, dst, UDP, 8 + |payload|, ident);
    UdpHeaderLayout(srcPort, dstPort, |payload|);
    assert |eth| == 14 && U16(data, 12) == U16(eth, 12) == ETHERTYPE_IPV4;
    assert data[14..34] == ip && data[34..42] == h && data[42..] == payload;
    ParseUndoesIpHeader(data, src, dst, UDP, 8 + |payload|, ident);
    HeaderAt(data, 34, h);
    assert data[34] == h[0] && data[35] == h[1] && data[36] == h[2] && data[37] == h[3] && data[38] == h[4]
           && data[39] == h[5];
  }

  // ---------------------------------------------------------------- IPv6 frames

  /** The fixed header of section 3 of RFC 8200; `first` holds version, traffic class and flow label. */
  function Ipv6Header(first: bytes, payloadLength: nat, next: byte, hopLimit: byte, src: bytes, dst: bytes): bytes
    requires payloadLength < 0x1_0000
  {
    first + Pack16(payloadLength) + [next, hopLimit] + src + dst
  }

  lemma Ipv6HeaderLayout(first: bytes, payloadLength: nat, next: byte, hopLimit: byte, src: bytes, dst: bytes)
    requires |first| == 4 && |src| == 16 && |dst| == 16 && payloadLength < 0x1_0000
    ensures var h := Ipv6Header(first, payloadLength, next, hopLimit, src, dst);
            |h| == 40 && h[0] == first[0] && h[6] == next && h[8..24] == src && h[24..40] == dst
  {
  }

  /** Whatever follows, the network layer of an IPv6 frame ends behind its chain of extension headers. */
  lemma ParseUndoesIpv6Header(data: bytes, first: bytes, payloadLength: nat, hopLimit: byte, src: bytes, dst: bytes,
                              chain: seq<Extension>, protocol: byte)
    requires |first| == 4 && first[0] as int / 16 == 6 && |src| == 16 && |dst| == 16 && payloadLength < 0x1_0000
    requires AllWellFormed(chain) && |chain| <= MAX_EXT_HEADERS && !IsExtension(protocol)
    requires 54 + |EncodeChain(chain, protocol)| <= |data|
    requires data[14..54] == Ipv6Header(first, payloadLength, First(chain, protocol), hopLimit, src, dst)
    requires data[54..54 + |EncodeChain(chain, protocol)|] == EncodeChain(chain, protocol)
    ensures ParseIpv6(data, Progress(Unparsed.(etherType := ETHERTYPE_IPV6), 14))
         == Some(Progress(Unparsed.(etherType := ETHERTYPE_IPV6, srcIpv6 := src, dstIpv6 := dst, hasIp := true,
                                    hasIpv6 := true, protocol := protocol),
                          54 + |EncodeChain(chain, protocol)|))
  {
    hide Ipv6Header, WalkFrom, EncodeChain, First, IsExtension, AllWellFormed;
    var h := Ipv6Header(first, payloadLength, First(chain, protocol), hopLimit, src, dst);
    Ipv6HeaderLayout(first, payloadLength, First(chain, protocol), hopLimit, src, dst);
    HeaderAt(data, 14, h);
    assert data[14] == h[0] && data[20] == h[6];
    SliceOfSlice(data, 14, 54, 8, 24);
    SliceOfSlice(data, 14, 54, 24, 40);
    WalkUndoesChain(data, 54, chain, protocol, MAX_EXT_HEADERS);
  }

  lemma FivePieces(a: bytes, b: bytes, c: bytes, d: bytes, e: bytes)
    requires |a| == 14 && |b| == 40 && |d| == 20
    ensures var data := a + b + c + d + e;
            var o := 54 + |c|;
            && data[12] == a[12] && data[13] == a[13]
            && data[14..54] == b && data[54..o] == c && data[o..o + 20] == d && data[o + 20..] == e
  {
  }

  /** The parser recovers addresses, ports, numbers, flags and payload of a TCP frame behind any allowed chain. */
  lemma ParseUndoesIpv6TcpFrame(macs: bytes, first: bytes, payloadLength: nat, hopLimit: byte, src: bytes, dst: bytes,
                                chain: seq<Extension>, srcPort: nat, dstPort: nat, seqNumber: nat, ackNumber: nat,
                                flags: byte, payload: bytes)
    requires |macs| == 12 && |first| == 4 && first[0] as int / 16 == 6 && |src| == 16 && |dst| == 16
             && payloadLength < 0x1_0000
    requires AllWellFormed(chain) && |chain| <= MAX_EXT_HEADERS
    requires srcPort < 0x1_0000 && dstPort < 0x1_0000 && seqNumber < 0x1_0000_0000 && ackNumber < 0x1_0000_0000
    ensures Parse(macs + Pack16(ETHERTYPE_IPV6)
            + Ipv6Header(first, payloadLength, First(chain, TCP), hopLimit, src, dst)
                  + EncodeChain(chain, TCP) + TcpHeader(srcPort, dstPort, seqNumber, ackNumber, flags) + payload)
         == Some(Unparsed.(etherType := ETHERTYPE_IPV6, hasIp := true, hasIpv6 := true, srcIpv6 := src, dstIpv6 := dst,
                           protocol := TCP,
                           hasTcp := true, srcPort := srcPort, dstPort := dstPort, seqNumber := seqNumber,
                           ackNumber := ackNumber, tcpFlags := flags, payload := payload))
  {
    var eth := macs + Pack16(ETHERTYPE_IPV6);
    var ip := Ipv6Header(first, payloadLength, First(chain, TCP), hopLimit, src, dst);
    var x := EncodeChain(chain, TCP);
    var h := TcpHeader(srcPort, dstPort, seqNumber, ackNumber, flags);
    TcpHeaderLayout(srcPort, dstPort, seqNumber, ackNumber, flags);
    Ipv6HeaderLayout(first, payloadLength, First(chain, TCP), hopLimit, src, dst);
    assert |eth| == 14 && eth[12] == 0x86 && eth[13] == 0xDD;
    hide *;
    FivePieces(eth, ip, x, h, payload);
    ParseIpv6TcpPieces(eth + ip + x + h + payload, first, payloadLength, hopLimit, src, dst, chain,
                       srcPort, dstPort, seqNumber, ackNumber, flags, payload);
  }

  lemma ParseIpv6TcpPieces(data: bytes, first: bytes, payloadLength: nat, hopLimit: byte, src: bytes, dst: bytes,
                           chain: seq<Extension>, srcPort: nat, dstPort: nat, seqNumber: nat, ackNumber: nat,
                           flags: byte, payload: bytes)
    requires |first| == 4 && first[0] as int / 16 == 6 && |src| == 16 && |dst| == 16 && payloadLength < 0x1_0000
    requires AllWellFormed(chain) && |chain| <= MAX_EXT_HEADERS
    requires srcPort < 0x1_0000 && dstPort < 0x1_0000 && seqNumber < 0x1_0000_0000 && ackNumber < 0x1_0000_0000
    requires 74 + |EncodeChain(chain, TCP)| <= |data| && data[12] == 0x86 && data[13] == 0xDD
    requires data[14..54] == Ipv6Header(first, payloadLength, First(chain, TCP), hopLimit, src, dst)
    requires data[54..54 + |EncodeChain(chain, TCP)|] == EncodeChain(chain, TCP)
    requires var o := 54 + |EncodeChain(chain, TCP)|;
             data[o..o + 20] == TcpHeader(srcPort, dstPort, seqNumber, ackNumber, flags) && data[o + 20..] == payload
    ensures Parse(data)
         == Some(Unparsed.(etherType := ETHERTYPE_IPV6, hasIp := true, hasIpv6 := true, srcIpv6 := src, dstIpv6 := dst,
                           protocol := TCP,
                           hasTcp := true, srcPort := srcPort, dstPort := dstPort, seqNumber := seqNumber,
                           ackNumber := ackNumber, tcpFlags := flags, payload := payload))
  {
    var o := 54 + |EncodeChain(chain, TCP)|;
    assert !IsExtension(TCP) && U16(data, 12) == ETHERTYPE_IPV6;
    TcpHeaderLayout(srcPort, dstPort, seqNumber, ackNumber, flags);
    TcpAt(data, o, TcpHeader(srcPort, dstPort, seqNumber, ackNumber, flags));
    hide *;
    ParseUndoesIpv6Header(data, first, payloadLength, hopLimit, src, dst, chain, TCP);
    var p := Progress(Unparsed.(etherType := ETHERTYPE_IPV6, srcIpv6 := src, dstIpv6 := dst, hasIp := true,
      hasIpv6 := true, protocol := TCP), o);
    TransportIsTcp(data, p, ICMPV6, srcPort, dstPort, seqNumber, ackNumber, flags);
    ParseIsTransport(data, p);
  }

  /** An IPv6 frame is parsed by its network layer, then its transport. */
  lemma ParseIsTransport(data: bytes, p: Progress)
    requires |data| >= 14 && U16(data, 12) == ETHERTYPE_IPV6 && p.offset <= |data|
    requires ParseIpv6(data, Progress(Unparsed.(etherType := ETHERTYPE_IPV6), 14)) == Some(p)
    ensures Parse(data) == match ParseTransport(data, p, ICMPV6)
                           case None => None
                           case Some(q) => Some(q.parsed.(payload := data[q.offset..]))
  {
    hide ParseIpv4, ParseIpv6, ParseTransport;
  }

  lemma TransportIsTcp(data: bytes, p: Progress, icmp: nat, srcPort: nat, dstPort: nat, seqNumber: nat, ackNumber: nat,
                       flags: byte)
    requires p.parsed.protocol == TCP && p.offset + 20 <= |data|
    requires U16(data, p.offset) == srcPort && U16(data, p.offset + 2) == dstPort
    requires U32(data, p.offset + 4) == seqNumber && U32(data, p.offset + 8) == ackNumber
    requires data[p.offset + 12] == 80 && data[p.offset + 13] == flags
    ensures ParseTransport(data, p, icmp)
         == Some(Progress(p.parsed.(srcPort := srcPort, dstPort := dstPort, seqNumber := seqNumber,
                                    ackNumber := ackNumber,
                                    tcpFlags := flags, hasTcp := true), p.offset + 20))
  {
  }

  // ---------------------------------------------------------------- the job builder

  /** createPacketJob's own computation of the payload; getPayload() gives null, here [], for an empty one. */
  function JobPayload(data: bytes, parsed: Parsed): (payload: bytes)
    requires parsed.hasTcp && |data| > 14 && |data| > 14 + data[14] as int % 16 * 4
             ==> 14 + data[14] as int % 16 * 4 + 12 < |data|
  {
    if |data| <= 14 then []
    else
      var transport := 14 + data[14] as int % 16 * 4;
      var payloadOffset :=
        if parsed.hasTcp && |data| > transport then transport + data[transport + 12] as int / 16 * 4
        else if parsed.hasUdp then transport + 8
        else 0;
      if payloadOffset < |data| then data[payloadOffset..] else []
  }

  /**
   For every accepted IPv4 TCP or UDP frame, built by the encoder or not, job builder and parser find the same
   payload.
   */
  lemma JobFindsParsersPayload(data: bytes)
    requires Parse(data).Some? && Parse(data).value.etherType == ETHERTYPE_IPV4
    requires Parse(data).value.hasTcp || Parse(data).value.hasUdp
    ensures |data| > 14 + data[14] as int % 16 * 4 + (if Parse(data).value.hasTcp then 12 else 0)
    ensures JobPayload(data, Parse(data).value) == Parse(data).value.payload
  {
    var r := ParseProgress(data).value;
    if r.offset == |data| { assert data[r.offset..] == []; }
  }
}
