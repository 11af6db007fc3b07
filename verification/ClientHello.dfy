/**
 The two TLS ClientHello walkers of the engine, the strict SNIExtractor::extract and the scan that
 TCPReassembler runs on its contiguous buffer, and the ClientHello encoder they must undo.
 */
module ClientHello {
  import opened Bytes

  // ---------------------------------------------------------------- SNIExtractor::extract

  /** SNIExtractor::isTLSClientHello. */
  predicate IsTlsClientHello(b: bytes) {
    && 9 <= |b|
    && b[0] == 0x16
    && 0x0300 <= U16(b, 1) <= 0x0304
    && U16(b, 3) <= |b| - 5
    && b[5] == 0x01
  }

  /** End of a vector with a one-byte length at offset o, when it lies inside b. */
  function SkipVector8(b: bytes, o: nat): (r: Option<nat>)
    ensures r.Some? ==> o < r.value <= |b|
  {
    if o >= |b| || o + 1 + b[o] as int > |b| then None else Some(o + 1 + b[o] as int)
  }

  /** End of a vector with a two-byte length at offset o, when it lies inside b. */
  function SkipVector16(b: bytes, o: nat): (r: Option<nat>)
    ensures r.Some? ==> o + 1 < r.value <= |b|
  {
    if o + 2 > |b| || o + 2 + U16(b, o) > |b| then None else Some(o + 2 + U16(b, o))
  }

  /** Offset of the extension block's length field, just past the compression methods. */
  function ExtensionsAt(b: bytes): (r: Option<nat>)
    ensures r.Some? ==> 43 < r.value <= |b|
  {
    if !IsTlsClientHello(b) || 9 + U24(b, 6) > |b| || 43 > |b| then None
    else
      var session := SkipVector8(b, 43);
      if session.None? then None
      else
        var ciphers := SkipVector16(b, session.value);
        if ciphers.None? then None else SkipVector8(b, ciphers.value)
  }

  /** The strict extension loop: any malformed server_name extension ends the search. */
  function ExtractFromExtensions(b: bytes, p: nat, end: nat): Option<bytes>
    requires end <= |b|
    decreases end - p
  {
    if p + 4 > end then None
    else
      var len := U16(b, p + 2);
      var q := p + 4;
      if q + len > end then None
      else if U16(b, p) == 0 then
        if len < 5 || U16(b, q) < 3 || b[q + 2] != 0 || U16(b, q + 3) > len - 5 then None
        else Some(b[q + 5..q + 5 + U16(b, q + 3)])
      else ExtractFromExtensions(b, q + len, end)
  }

  /** What SNIExtractor::extract returns. */
  function Extract(b: bytes): Option<bytes> {
    var at := ExtensionsAt(b);
    if at.None? || at.value + 2 > |b| || at.value + 2 + U16(b, at.value) > |b| then None
    else ExtractFromExtensions(b, at.value + 2, at.value + 2 + U16(b, at.value))
  }

  /** SNIExtractor::extract, with its moving offset and its loop over extensions. */
  method ExtractSni(payload: bytes) returns (sni: Option<bytes>)
    ensures sni == Extract(payload)
  {
    hide U16, U24;
    var length := |payload|;
    if !IsTlsClientHello(payload) { return None; }
    var offset := 5;
    if offset + 4 > length { return None; }
    var handshakeLength := U24(payload, offset + 1);
    offset := offset + 4;
    if offset + handshakeLength > length { return None; }
    if offset + 2 > length { return None; }
    offset := offset + 2;
    if offset + 32 > length { return None; }
    offset := offset + 32;

    if offset >= length { return None; }
    offset := offset + 1 + payload[offset] as int;
    if offset > length { return None; }
    if offset + 2 > length { return None; }
    offset := offset + 2 + U16(payload, offset);
    if offset > length { return None; }
    if offset >= length { return None; }
    offset := offset + 1 + payload[offset] as int;
    if offset > length { return None; }
    assert ExtensionsAt(payload) == Some(offset);

    if offset + 2 > length { return None; }
    var extensionsLength := U16(payload, offset);
    offset := offset + 2;
    var extensionsEnd := offset + extensionsLength;
    if extensionsEnd > length { return None; }

    while offset + 4 <= extensionsEnd
      invariant 0 <= offset
      invariant Extract(payload) == ExtractFromExtensions(payload, offset, extensionsEnd)
    {
      var extensionType := U16(payload, offset);
      var extensionLength := U16(payload, offset + 2);
      offset := offset + 4;
      if offset + extensionLength > extensionsEnd { break; }
      if extensionType == 0 {
        if extensionLength < 5 { break; }
        if U16(payload, offset) < 3 { break; }
        var sniLength := U16(payload, offset + 3);
        if payload[offset + 2] != 0 { break; }
        if sniLength > extensionLength - 5 { break; }
        return Some(payload[offset + 5..offset + 5 + sniLength]);
      }
      offset := offset + extensionLength;
    }
    sni := None;
  }

  // ---------------------------------------------------------------- the reassembler's scan

  /**
   Outcome of scanning the contiguous buffer. The scan subtracts each length from an unsigned count
   of remaining bytes without comparing first; when a length exceeds what remains, the count wraps to a
   huge value and the next read is past the buffer. That case is OutOfBounds.
   */
  datatype ScanOutcome = Found(name: bytes) | NotFound | OutOfBounds

  /** The scan's extension loop: a malformed or foreign extension is skipped. */
  function ScanExtensions(b: bytes, p: nat, end: nat): ScanOutcome
    requires end <= |b|
    decreases end - p
  {
    if p + 4 > end then NotFound
    else
      var len := U16(b, p + 2);
      var q := p + 4;
      if U16(b, p) == 0 && q + len <= end && len >= 5 && U16(b, q) >= 3 && b[q + 2] == 0
        && 5 + U16(b, q + 3) <= len then
        Found(b[q + 5..q + 5 + U16(b, q + 3)])
      else ScanExtensions(b, q + len, end)
  }

  /** The scan from the session id at offset 43 onwards. */
  function ScanHello(b: bytes): ScanOutcome
    requires |b| > 43
  {
    var ciphersAt := 44 + b[43] as int;
    if ciphersAt > |b| then OutOfBounds
    else if |b| - ciphersAt <= 2 then NotFound
    else
      var compressionAt := ciphersAt + 2 + U16(b, ciphersAt);
      if compressionAt > |b| then OutOfBounds
      else if |b| - compressionAt <= 1 then NotFound
      else
        var extensionsAt := compressionAt + 1 + b[compressionAt] as int;
        if extensionsAt > |b| then OutOfBounds
        else if |b| - extensionsAt <= 2 then NotFound
        else
          var p := extensionsAt + 2;
          var room := if U16(b, extensionsAt) < |b| - p then U16(b, extensionsAt) else |b| - p;
          ScanExtensions(b, p, p + room)
  }

  /** What the scan of the contiguous buffer yields. */
  function Scan(b: bytes): ScanOutcome {
    if |b| >= 5 && b[0] == 0x16 && b[1] == 0x03 && |b| >= 5 + U16(b, 3) && |b| > 43 && b[5] == 0x01 then ScanHello(b)
    else NotFound
  }

  /** The loop over extensions, from cursor `start` to `end`. */
  method ScanExtensionLoop(buffer: bytes, start: nat, end: nat) returns (outcome: ScanOutcome)
    requires end <= |buffer|
    ensures outcome == ScanExtensions(buffer, start, end)
  {
    var p := start;
    while p + 4 <= end
      invariant 0 <= p
      invariant ScanExtensions(buffer, start, end) == ScanExtensions(buffer, p, end)
    {
      var extensionType := U16(buffer, p);
      var extensionLength := U16(buffer, p + 2);
      p := p + 4;
      if extensionType == 0 && p + extensionLength <= end && extensionLength >= 5 {
        if U16(buffer, p) >= 3 && buffer[p + 2] == 0 {
          var nameLength := U16(buffer, p + 3);
          if 5 + nameLength <= extensionLength {
            return Found(buffer[p + 5..p + 5 + nameLength]);
          }
        }
      }
      p := p + extensionLength;
    }
    outcome := NotFound;
  }

  /** The scan as the code runs it: a cursor and a count of remaining bytes, skipping one vector at a time. */
  method ScanForSni(buffer: bytes) returns (outcome: ScanOutcome)
    ensures outcome == Scan(buffer)
  {
    if !(|buffer| >= 5 && buffer[0] == 0x16 && buffer[1] == 0x03) { return NotFound; }
    var tlsLength := U16(buffer, 3);
    if |buffer| < 5 + tlsLength { return NotFound; }
    var p, remaining := 5, |buffer| - 5;
    if !(remaining > 4 && buffer[p] == 0x01) { return NotFound; }
    if remaining <= 4 + 2 + 32 { return NotFound; }
    p, remaining := p + 38, remaining - 38;

    var skip := 1 + buffer[p] as int;
    if skip > remaining { return OutOfBounds; }
    p, remaining := p + skip, remaining - skip;
    if remaining <= 2 { return NotFound; }

    skip := 2 + U16(buffer, p);
    if skip > remaining { return OutOfBounds; }
    p, remaining := p + skip, remaining - skip;
    if remaining <= 1 { return NotFound; }

    skip := 1 + buffer[p] as int;
    if skip > remaining { return OutOfBounds; }
    p, remaining := p + skip, remaining - skip;
    if remaining <= 2 { return NotFound; }

    var extensionsLength := U16(buffer, p);
    p, remaining := p + 2, remaining - 2;
    outcome := ScanExtensionLoop(buffer, p, p + if extensionsLength < remaining then extensionsLength else remaining);
  }

  // ---------------------------------------------------------------- agreement

  lemma {:induction false} ExtensionLoopsAgree(b: bytes, p: nat, end: nat)
    requires end <= |b|
    requires ExtractFromExtensions(b, p, end).Some?
    ensures ScanExtensions(b, p, end) == Found(ExtractFromExtensions(b, p, end).value)
    decreases end - p
  {
    if U16(b, p) != 0 {
      ExtensionLoopsAgree(b, p + 4 + U16(b, p + 2), end);
    }
  }

  /** Whenever the strict extractor names a host, the scan stays in bounds and names the same host. */
  lemma ScanFollowsExtract(b: bytes)
    requires Extract(b).Some?
    ensures Scan(b) == Found(Extract(b).value)
  {
    var at := ExtensionsAt(b).value;
    ExtensionLoopsAgree(b, at + 2, at + 2 + U16(b, at));
  }

  // ---------------------------------------------------------------- the encoder

  /** Longest host whose record length still fits 16 bits; struct.pack raises an error beyond it. */
  const MAX_HOST: nat := 65470

  function ServerNameExtension(host: bytes): bytes
    requires |host| <= MAX_HOST
  {
    var entry := [0] + Pack16(|host|) + host;
    var list := Pack16(|entry|) + entry;
    Pack16(0) + Pack16(|list|) + list
  }

  /** Version, random, empty session id, two cipher suites and the null compression method. */
  function HelloFixedPart(random: bytes): (h: bytes)
    requires |random| == 32
  {
    var session: bytes := [0];
    var ciphers: bytes := [0, 4, 0x13, 0x01, 0x13, 0x02];
    var compression: bytes := [1, 0];
    Pack16(0x0303) + random + session + ciphers + compression
  }

  /** The server_name extension followed by the fixed supported_versions extension. */
  function Extensions(host: bytes): bytes
    requires |host| <= MAX_HOST
  {
    var supportedVersions: bytes := [0, 0x2b, 0, 3, 2, 0x03, 0x04];
    ServerNameExtension(host) + supportedVersions
  }

  function HelloBody(host: bytes, random: bytes): bytes
    requires |host| <= MAX_HOST && |random| == 32
  {
    HelloFixedPart(random) + (Pack16(|Extensions(host)|) + Extensions(host))
  }

  /** create_tls_client_hello: the whole TLS record for a host and 32 random bytes. */
  function Record(host: bytes, random: bytes): bytes
    requires |host| <= MAX_HOST && |random| == 32
  {
    var body := HelloBody(host, random);
    var handshake := [0x01] + Pack24(|body|) + body;
    [0x16] + Pack16(0x0301) + Pack16(|handshake|) + handshake
  }

  /** The server_name extension, read back at the decoder's relative offsets. */
  lemma ExtensionLayout(host: bytes, rest: bytes)
    requires |host| <= MAX_HOST
    ensures |ServerNameExtension(host)| == 9 + |host|
    ensures var x := ServerNameExtension(host) + rest;
            && U16(x, 0) == 0 && U16(x, 2) == 5 + |host| && U16(x, 4) == 3 + |host|
            && x[6] == 0 && U16(x, 7) == |host| && x[9..9 + |host|] == host
  {
    var entry := [0] + Pack16(|host|) + host;
    var list := Pack16(|entry|) + entry;
    var x := ServerNameExtension(host) + rest;
    assert x[4..] == list + rest;
    assert x[6..] == entry + rest;
    assert x[9..] == host + rest;
  }

  /** The hello body, read back at the decoder's relative offsets. */
  lemma BodyLayout(host: bytes, random: bytes)
    requires |host| <= MAX_HOST && |random| == 32
    ensures var y := HelloBody(host, random);
            && |y| == 61 + |host|
            && y[34] == 0 && U16(y, 35) == 4 && y[41] == 1 && U16(y, 43) == 16 + |host|
            && y[45..] == Extensions(host)
  {
    var y := HelloBody(host, random);
    var head := HelloFixedPart(random);
    assert |head| == 43;
    assert head[34] == 0 && U16(head, 35) == 4 && head[41] == 1;
    assert y[43..] == Pack16(|Extensions(host)|) + Extensions(host);
  }

  /** Where the decoder looks, the encoder put the right lengths, types and name. */
  lemma RecordLayout(host: bytes, random: bytes, rest: bytes)
    requires |host| <= MAX_HOST && |random| == 32
    ensures var b := Record(host, random) + rest;
            && |Record(host, random)| == 70 + |host|
            && b[0] == 0x16 && U16(b, 1) == 0x0301 && U16(b, 3) == 65 + |host|
            && b[5] == 0x01 && U24(b, 6) == 61 + |host|
            && b[43] == 0 && U16(b, 44) == 4 && b[50] == 1 && U16(b, 52) == 16 + |host|
            && U16(b, 54) == 0 && U16(b, 56) == 5 + |host|
            && U16(b, 58) == 3 + |host| && b[60] == 0 && U16(b, 61) == |host|
            && b[63..63 + |host|] == host
  {
    var body := HelloBody(host, random);
    BodyLayout(host, random);
    var b := Record(host, random) + rest;
    var after := b[9..];
    assert after == body + rest;
    var e := b[54..];
    var tail := [0, 0x2b, 0, 3, 2, 0x03, 0x04] + rest;
    ExtensionLayout(host, tail);
    assert e == ServerNameExtension(host) + tail;
    assert b[63..63 + |host|] == e[9..9 + |host|];
  }

  /** extract undoes the encoder for every host whose lengths fit, whatever follows the record. */
  lemma ExtractUndoesRecord(host: bytes, random: bytes, rest: bytes)
    requires |host| <= MAX_HOST && |random| == 32
    ensures Extract(Record(host, random) + rest) == Some(host)
  {
    var b := Record(host, random) + rest;
    RecordLayout(host, random, rest);
    assert SkipVector8(b, 43) == Some(44);
    assert SkipVector16(b, 44) == Some(50);
    assert SkipVector8(b, 50) == Some(52);
  }
}
