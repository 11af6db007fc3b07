/**
 The ClientHello message of section 4.1.2 of RFC 8446 in its record, with any session id, cipher suites, compression
 methods and extensions: exactly the byte strings in which the walkers find a list of extensions, and which list.
 */
module HelloFormat {
  import opened Bytes
  import opened ClientHello
  import opened HelloWalkers

  /** A vector with a length of one byte, and one with a length of two. */
  function Vector8(v: bytes): bytes
    requires |v| < 0x100
  {
    [|v|] + v
  }

  function Vector16(v: bytes): bytes
    requires |v| < 0x1_0000
  {
    Pack16(|v|) + v
  }

  /** What follows version and random in a hello. */
  datatype Fields = Fields(session: bytes, ciphers: bytes, compression: bytes, extensions: bytes)
  {
    predicate Fit() {
      |session| < 0x100 && |ciphers| < 0x1_0000 && |compression| < 0x100 && |extensions| < 0x1_0000
    }

    function Encode(): bytes
      requires Fit()
    {
      Vector8(session) + Vector16(ciphers) + Vector8(compression) + Vector16(extensions)
    }

    function ExtensionsOffset(): nat {
      4 + |session| + |ciphers| + |compression|
    }
  }

  /** A handshake record of SSL 3.0 to TLS 1.3 whose lengths stay within the data, with a client hello in it. */
  predicate HelloRecord(b: bytes) {
    && 43 <= |b| && b[0] == 22 && b[1] == 3 && b[2] <= 4 && 5 + U16(b, 3) <= |b| && b[5] == 1 && 9 + U24(b, 6) <= |b|
  }

  // ---------------------------------------------------------------- the fields

  lemma VectorLayout(a: bytes, b: bytes, c: bytes, d: bytes, tail: bytes)
    requires |a| < 0x100 && |b| < 0x1_0000 && |c| < 0x100 && |d| < 0x1_0000
    ensures var x := Vector8(a) + Vector16(b) + Vector8(c) + Vector16(d) + tail;
            var i, j, k := 1 + |a|, 3 + |a| + |b|, 4 + |a| + |b| + |c|;
            && |x| == k + 2 + |d| + |tail|
            && x[0] as int == |a| && U16(x, i) == |b| && x[j] as int == |c| && U16(x, k) == |d|
            && x[k + 2..k + 2 + |d|] == d
  {
    var x := Vector8(a) + Vector16(b) + Vector8(c) + Vector16(d) + tail;
    var i, j, k := 1 + |a|, 3 + |a| + |b|, 4 + |a| + |b| + |c|;
    assert x[i] == Vector16(b)[0] && x[i + 1] == Vector16(b)[1];
    assert x[j] == Vector8(c)[0];
    assert x[k] == Vector16(d)[0] && x[k + 1] == Vector16(d)[1];
    assert U16(Vector16(b), 0) == |b| && U16(Vector16(d), 0) == |d|;
  }

  /** The hello's fields are found where they were put. */
  lemma FieldsFound(b: bytes, f: Fields, tail: bytes)
    requires HelloRecord(b) && f.Fit() && b[43..] == f.Encode() + tail
    ensures ExtensionsAt(b) == Some(43 + f.ExtensionsOffset())
    ensures var at := 43 + f.ExtensionsOffset();
            && at + 2 + |f.extensions| <= |b| && U16(b, at) == |f.extensions|
            && b[at + 2..at + 2 + |f.extensions|] == f.extensions
  {
    VectorLayout(f.session, f.ciphers, f.compression, f.extensions, tail);
    var x := b[43..];
    assert x == Vector8(f.session) + Vector16(f.ciphers) + Vector8(f.compression) + Vector16(f.extensions) + tail;
    var i, j, k := 1 + |f.session|, 3 + |f.session| + |f.ciphers|, f.ExtensionsOffset();
    hide Vector8, Vector16, Fields.Encode;
    assert b[43] == x[0] && b[43 + i] == x[i] && b[44 + i] == x[i + 1] && b[43 + j] == x[j];
    assert b[43 + k] == x[k] && b[44 + k] == x[k + 1];
    assert SkipVector8(b, 43) == Some(43 + i) && SkipVector16(b, 43 + i) == Some(43 + j);
    assert SkipVector8(b, 43 + j) == Some(43 + k);
    SliceOfSlice(b, 43, |b|, k + 2, k + 2 + |f.extensions|);
  }

  lemma VectorTaken8(b: bytes, o: nat)
    requires SkipVector8(b, o).Some?
    ensures var end := SkipVector8(b, o).value;
            end - o - 1 < 0x100 && b[o..end] == Vector8(b[o + 1..end])
  {
    var end := SkipVector8(b, o).value;
    assert b[o..end] == [b[o]] + b[o + 1..end];
  }

  lemma VectorTaken16(b: bytes, o: nat)
    requires SkipVector16(b, o).Some?
    ensures var end := SkipVector16(b, o).value;
            end - o - 2 < 0x1_0000 && b[o..end] == Vector16(b[o + 2..end])
  {
    var end := SkipVector16(b, o).value;
    PackedAgain(b[o], b[o + 1]);
    assert b[o..end] == [b[o], b[o + 1]] + b[o + 2..end];
  }

  lemma PackedAgain(hi: byte, lo: byte)
    ensures Pack16(hi as int * 256 + lo as int) == [hi, lo]
  {
  }

  lemma Reassembled(b: bytes, i: nat, j: nat, k: nat, m: nat)
    requires 43 <= i <= j <= k <= m <= |b|
    ensures b[43..] == b[43..i] + b[i..j] + b[j..k] + b[k..m] + b[m..]
  {
  }

  lemma RecordOfList(b: bytes)
    requires ExtensionList(b).Some?
    ensures HelloRecord(b)
  {
    assert b[1] as int == U16(b, 1) / 256 == 3;
    hide Layout;
  }

  /** The walkers' steps over the four vectors of the hello. */
  lemma FourSteps(b: bytes) returns (i: nat, j: nat, k: nat, m: nat)
    requires ExtensionList(b).Some?
    ensures SkipVector8(b, 43) == Some(i) && SkipVector16(b, i) == Some(j) && SkipVector8(b, j) == Some(k)
    ensures SkipVector16(b, k) == Some(m) && ExtensionsAt(b) == Some(k)
  {
    hide Layout;
    i := SkipVector8(b, 43).value;
    j := SkipVector16(b, i).value;
    k := SkipVector8(b, j).value;
    m := SkipVector16(b, k).value;
  }

  /** Conversely the data is made of the fields the walkers step over. */
  lemma FieldsTaken(b: bytes) returns (f: Fields)
    requires ExtensionList(b).Some?
    ensures HelloRecord(b) && f.Fit()
    ensures var end := 43 + f.ExtensionsOffset() + 2 + |f.extensions|;
            end <= |b| && b[43..] == f.Encode() + b[end..] && ExtensionsAt(b) == Some(end - 2 - |f.extensions|)
            && b[end - |f.extensions|..end] == f.extensions && U16(b, end - 2 - |f.extensions|) == |f.extensions|
  {
    hide ExtensionList, HelloRecord, ExtensionsAt, Vector8, Vector16, Layout;
    RecordOfList(b);
    var i, j, k, m := FourSteps(b);
    VectorTaken8(b, 43);
    VectorTaken16(b, i);
    VectorTaken8(b, j);
    VectorTaken16(b, k);
    f := Fields(b[44..i], b[i + 2..j], b[j + 1..k], b[k + 2..m]);
    Reassembled(b, i, j, k, m);
  }

  // ---------------------------------------------------------------- the extensions

  lemma HeaderMoves(b: bytes, o: nat, x: bytes, p: nat)
    requires o + |x| <= |b| && b[o..o + |x|] == x && p + 4 <= |x|
    ensures U16(b, o + p) == U16(x, p) && U16(b, o + p + 2) == U16(x, p + 2)
  {
    assert b[o + p] == x[p] && b[o + p + 1] == x[p + 1] && b[o + p + 2] == x[p + 2] && b[o + p + 3] == x[p + 3];
  }

  lemma LayoutStops(b: bytes, p: nat, end: nat)
    requires end <= |b| && (p + 4 > end || p + 4 + U16(b, p + 2) > end)
    ensures Layout(b, p, end) == []
  {
  }

  /** Extensions are read alike wherever the block is. */
  lemma {:induction false} LayoutMoves(b: bytes, o: nat, x: bytes, p: nat)
    requires o + |x| <= |b| && b[o..o + |x|] == x && p <= |x|
    ensures Layout(b, o + p, o + |x|) == Layout(x, p, |x|)
    decreases |x| - p
  {
    hide *;
    if p + 4 <= |x| { HeaderMoves(b, o, x, p); }
    if p + 4 > |x| || p + 4 + U16(x, p + 2) > |x| {
      LayoutStops(b, o + p, o + |x|);
      LayoutStops(x, p, |x|);
    } else {
      var next := p + 4 + U16(x, p + 2);
      LayoutMoves(b, o, x, next);
      SliceOfSlice(b, o, o + |x|, p + 4, next);
      LayoutStep(b, o + p, o + |x|);
      LayoutStep(x, p, |x|);
    }
  }

  /** The list of extensions a block of bytes holds. */
  function ListOf(extensions: bytes): seq<Extension> {
    Layout(extensions, 0, |extensions|)
  }

  predicate Hello(b: bytes, f: Fields) {
    && HelloRecord(b) && f.Fit() && |f.Encode()| <= |b| - 43 && b[43..43 + |f.Encode()|] == f.Encode()
  }

  lemma EncodeSize(f: Fields)
    requires f.Fit()
    ensures |f.Encode()| == f.ExtensionsOffset() + 2 + |f.extensions|
  {
  }

  lemma ListIs(b: bytes, at: nat)
    requires ExtensionsAt(b) == Some(at) && at + 2 <= |b| && at + 2 + U16(b, at) <= |b|
    ensures ExtensionList(b) == Some(Layout(b, at + 2, at + 2 + U16(b, at)))
  {
    hide ExtensionsAt, Layout;
  }

  lemma HelloIs(b: bytes, f: Fields)
    requires Hello(b, f)
    ensures HelloRecord(b) && f.Fit() && 43 + |f.Encode()| <= |b|
    ensures b[43..] == f.Encode() + b[43 + |f.Encode()|..]
  {
    var n := 43 + |f.Encode()|;
    assert b[43..] == b[43..n] + b[n..];
  }

  /** The fields a hello is made of are the walkers' fields. */
  lemma HelloListed(b: bytes, f: Fields)
    requires Hello(b, f)
    ensures ExtensionList(b) == Some(ListOf(f.extensions))
  {
    hide *;
    HelloIs(b, f);
    FieldsFound(b, f, b[43 + |f.Encode()|..]);
    var at := 43 + f.ExtensionsOffset();
    ListIs(b, at);
    LayoutMoves(b, at + 2, f.extensions, 0);
    ListOfIs(f.extensions);
  }

  lemma ListOfIs(x: bytes)
    ensures ListOf(x) == Layout(x, 0, |x|)
  {
  }

  lemma HelloTaken(b: bytes, f: Fields, end: nat)
    requires HelloRecord(b) && f.Fit() && 43 <= end <= |b| && b[43..] == f.Encode() + b[end..]
    ensures Hello(b, f)
  {
    var n := |f.Encode()|;
    assert b[43..][..n] == f.Encode();
    assert b[43..43 + n] == b[43..][..n];
    hide Fields.Encode;
  }

  /**
   Exactly the byte strings in which a list of extensions is found: records that hold the fields of a hello, whatever
   follows; the list is that of the extension block.
   */
  lemma ExtensionListIff(b: bytes, list: seq<Extension>)
    ensures ExtensionList(b) == Some(list) <==> exists f: Fields :: Hello(b, f) && ListOf(f.extensions) == list
  {
    hide *;
    if ExtensionList(b) == Some(list) {
      var f := FieldsTaken(b);
      HelloTaken(b, f, 43 + f.ExtensionsOffset() + 2 + |f.extensions|);
      HelloListed(b, f);
    }
    if f: Fields :| Hello(b, f) && ListOf(f.extensions) == list {
      HelloListed(b, f);
    }
  }

  predicate Encodable(list: seq<Extension>) {
    forall i :: 0 <= i < |list| ==> list[i].kind < 0x1_0000 && |list[i].body| < 0x1_0000
  }

  function EncodeExtensions(list: seq<Extension>): bytes
    requires Encodable(list)
  {
    if list == [] then [] else Pack16(list[0].kind) + Vector16(list[0].body) + EncodeExtensions(list[1..])
  }

  lemma OneExtension(kind: nat, body: bytes, rest: bytes)
    requires kind < 0x1_0000 && |body| < 0x1_0000
    ensures var x := Pack16(kind) + Vector16(body) + rest;
            && |x| == 4 + |body| + |rest| && U16(x, 0) == kind && U16(x, 2) == |body|
            && x[4..4 + |body|] == body && x[4 + |body|..] == rest
  {
  }

  /** Reading the extensions undoes writing them. */
  lemma {:induction false} ListUndoesEncode(list: seq<Extension>)
    requires Encodable(list)
    ensures ListOf(EncodeExtensions(list)) == list
  {
    hide *;
    if list == [] {
      EmptyList();
    } else {
      EncodeStep(list);
      var first, rest, x := list[0], EncodeExtensions(list[1..]), EncodeExtensions(list);
      ListUndoesEncode(list[1..]);
      OneExtension(first.kind, first.body, rest);
      ListOfIs(x);
      ListOfIs(rest);
      LayoutStep(x, 0, |x|);
      LayoutMoves(x, 4 + |first.body|, rest, 0);
      assert list == [first] + list[1..];
    }
  }

  lemma EmptyList()
    ensures ListOf(EncodeExtensions([])) == []
  {
  }

  lemma EncodeStep(list: seq<Extension>)
    requires Encodable(list) && list != []
    ensures Encodable(list[1..]) && list[0].kind < 0x1_0000 && |list[0].body| < 0x1_0000
    ensures EncodeExtensions(list) == Pack16(list[0].kind) + Vector16(list[0].body) + EncodeExtensions(list[1..])
  {
  }

  /** A server_name body names a host exactly if it has the form of section 3 of RFC 6066, up to the list's length. */
  lemma HostNameIff(body: bytes, host: bytes)
    ensures HostName(body) == Some(host) <==>
            && 5 + |host| <= |body| && |host| < 0x1_0000 && 3 <= U16(body, 0) && body[2] == 0
            && body[3..5] == Pack16(|host|) && body[5..5 + |host|] == host
  {
    if |body| >= 5 {
      PackedAgain(body[3], body[4]);
      assert body[3..5] == [body[3], body[4]];
    }
    if 5 + |host| <= |body| && |host| < 0x1_0000 && body[3..5] == Pack16(|host|) {
      assert U16(body, 3) == U16(body[3..5], 0) == |host|;
    }
  }

  /** Both walkers on every hello: the extractor by its first server_name, the scan by the first well-formed one. */
  lemma WalkersOnHello(b: bytes, f: Fields, list: seq<Extension>)
    requires Encodable(list) && |EncodeExtensions(list)| < 0x1_0000 && f.extensions == EncodeExtensions(list)
    requires Hello(b, f)
    ensures Extract(b) == FirstName(list)
    ensures Scan(b) == match FirstGoodName(list) case None => NotFound case Some(name) => Found(name)
  {
    HelloListed(b, f);
    ListUndoesEncode(list);
    ExtractByExtensions(b);
    ScanByExtensions(b);
    hide Hello, ExtensionList, FirstName, FirstGoodName, EncodeExtensions;
  }

  /** Whatever else the data is, the extractor finds nothing in it. */
  lemma NothingElseIsExtracted(b: bytes)
    requires Extract(b).Some?
    ensures exists f: Fields :: Hello(b, f) && FirstName(ListOf(f.extensions)) == Extract(b)
  {
    ExtractByExtensions(b);
    ExtensionListIff(b, ExtensionList(b).value);
    hide Hello, FirstName, Extract;
  }

  // ---------------------------------------------------------------- the scan, on whole and on cut-off hellos

  /** What the scan looks at before the session id; it checks neither the handshake's length nor the minor version. */
  predicate HelloStart(b: bytes) {
    43 < |b| && b[0] == 22 && b[1] == 3 && 5 + U16(b, 3) <= |b| && b[5] == 1
  }

  lemma ScanNeedsStart(b: bytes)
    requires !HelloStart(b)
    ensures Scan(b) == NotFound
  {
  }

  /** As much of the extension block as its length says and the data has. */
  function Block(length: nat, rest: bytes): bytes {
    if length < |rest| then rest[..length] else rest
  }

  lemma ThreeVectors(a: bytes, b: bytes, c: bytes, rest: bytes)
    requires |a| < 0x100 && |b| < 0x1_0000 && |c| < 0x100
    ensures var x := Vector8(a) + Vector16(b) + Vector8(c) + rest;
            var i, j, k := 1 + |a|, 3 + |a| + |b|, 4 + |a| + |b| + |c|;
            && |x| == k + |rest| && x[0] as int == |a| && U16(x, i) == |b| && x[j] as int == |c| && x[k..] == rest
  {
    var x := Vector8(a) + Vector16(b) + Vector8(c) + rest;
    var i, j := 1 + |a|, 3 + |a| + |b|;
    assert x[i] == Vector16(b)[0] && x[i + 1] == Vector16(b)[1];
    assert x[j] == Vector8(c)[0];
    assert U16(Vector16(b), 0) == |b|;
  }

  /** The scan's steps over three vectors that are whole. */
  lemma ScanSteps(b: bytes, i: nat, j: nat, k: nat)
    requires HelloStart(b) && 45 + k <= |b|
    requires i == 1 + b[43] as int && i < j < k
    requires j == i + 2 + U16(b, 43 + i) && k == j + 1 + b[43 + j] as int
    ensures var p, length := 45 + k, U16(b, 43 + k);
            var end := if p + length < |b| then p + length else |b|;
            Scan(b) == if p == |b| then NotFound else ScanExtensions(b, p, end)
  {
    hide ScanExtensions;
  }

  /** Where the block's length and the block are. */
  lemma BlockFound(b: bytes, a: bytes, c: bytes, m: bytes, length: nat, rest: bytes)
    requires 43 <= |b| && |a| < 0x100 && |c| < 0x1_0000 && |m| < 0x100 && length < 0x1_0000
    requires b[43..] == Vector8(a) + Vector16(c) + Vector8(m) + (Pack16(length) + rest)
    ensures var i, j, k := 1 + |a|, 3 + |a| + |c|, 4 + |a| + |c| + |m|;
            && |b| == 45 + k + |rest| && b[43] as int == |a| && U16(b, 43 + i) == |c| && b[43 + j] as int == |m|
            && U16(b, 43 + k) == length && b[45 + k..] == rest
  {
    var x, tail := b[43..], Pack16(length) + rest;
    var i, j, k := 1 + |a|, 3 + |a| + |c|, 4 + |a| + |c| + |m|;
    ThreeVectors(a, c, m, tail);
    hide Vector8, Vector16, Pack16;
    assert b[43] == x[0] && b[43 + i] == x[i] && b[44 + i] == x[i + 1] && b[43 + j] == x[j];
    assert b[43 + k] == x[k..][0] && b[44 + k] == x[k..][1];
    assert tail[0] == Pack16(length)[0] && tail[1] == Pack16(length)[1];
    assert U16(Pack16(length), 0) == length;
    assert b[45 + k..] == x[k..][2..] == rest;
  }

  /** The scan takes the first well-formed server_name of whatever part of the extension block is there. */
  lemma ScanReads(b: bytes, session: bytes, ciphers: bytes, compression: bytes, length: nat, rest: bytes)
    requires HelloStart(b) && |session| < 0x100 && |ciphers| < 0x1_0000 && |compression| < 0x100 && length < 0x1_0000
    requires b[43..] == Vector8(session) + Vector16(ciphers) + Vector8(compression) + (Pack16(length) + rest)
    ensures Scan(b) == match FirstGoodName(ListOf(Block(length, rest)))
                       case None => NotFound case Some(name) => Found(name)
  {
    hide *;
    var p, block := 49 + |session| + |ciphers| + |compression|, Block(length, rest);
    StartIs(b);
    BlockFound(b, session, ciphers, compression, length, rest);
    ScanSteps(b, 1 + |session|, 3 + |session| + |ciphers|, 4 + |session| + |ciphers| + |compression|);
    if rest == [] {
      NothingInEmptyBlock(length);
    } else {
      BlockIs(length, rest);
      ScanOfBlock(b, p, block);
    }
  }

  lemma StartIs(b: bytes)
    requires HelloStart(b)
    ensures 43 < |b|
  {
  }

  lemma ScanOfBlock(b: bytes, p: nat, block: bytes)
    requires p + |block| <= |b| && b[p..][..|block|] == block
    ensures ScanExtensions(b, p, p + |block|)
         == match FirstGoodName(ListOf(block)) case None => NotFound case Some(name) => Found(name)
  {
    hide *;
    assert b[p..p + |block|] == b[p..][..|block|];
    ScanTakesFirstGoodName(b, p, p + |block|);
    LayoutMoves(b, p, block, 0);
    ListOfIs(block);
  }

  lemma BlockIs(length: nat, rest: bytes)
    ensures var block := Block(length, rest);
            |block| == (if length < |rest| then length else |rest|) && block == rest[..|block|]
  {
  }

  lemma NothingInEmptyBlock(length: nat)
    ensures FirstGoodName(ListOf(Block(length, []))) == None
  {
  }

  /**
   Where the data is cut off. Inside a vector of which at least a byte is there, or inside the session id, the count
   of remaining bytes wraps; before, the scan gives up in time.
   */
  lemma ScanCutInSession(b: bytes, length: byte, x: bytes)
    requires HelloStart(b) && b[43..] == [length] + x && |x| < length as int
    ensures Scan(b) == OutOfBounds
  {
    assert b[43] == b[43..][0];
  }

  lemma ScanCutInCiphers(b: bytes, session: bytes, length: nat, x: bytes)
    requires HelloStart(b) && |session| < 0x100 && length < 0x1_0000
    requires b[43..] == Vector8(session) + (Pack16(length) + x) && |x| < length
    ensures Scan(b) == if x == [] then NotFound else OutOfBounds
  {
    var y := b[43..];
    assert b[43] == y[0] == Vector8(session)[0];
    assert b[44 + |session|] == y[1 + |session|] == Pack16(length)[0];
    assert b[45 + |session|] == y[2 + |session|] == Pack16(length)[1];
    assert U16(b, 44 + |session|) == U16(Pack16(length), 0) == length;
  }

  lemma ScanCutInCompression(b: bytes, session: bytes, ciphers: bytes, length: byte, x: bytes)
    requires HelloStart(b) && |session| < 0x100 && |ciphers| < 0x1_0000
    requires b[43..] == Vector8(session) + Vector16(ciphers) + ([length] + x) && |x| < length as int
    ensures Scan(b) == if x == [] then NotFound else OutOfBounds
  {
    var y := b[43..];
    var i, j := 1 + |session|, 3 + |session| + |ciphers|;
    assert b[43] == y[0] == Vector8(session)[0];
    assert b[43 + i] == y[i] == Vector16(ciphers)[0] && b[44 + i] == y[i + 1] == Vector16(ciphers)[1];
    assert U16(b, 43 + i) == U16(Vector16(ciphers), 0) == |ciphers|;
    assert b[43 + j] == y[j] == length;
  }

  /** Cut off in or right before a length, after whole vectors. */
  lemma ScanCutBeforeLength(b: bytes, session: bytes, ciphers: bytes, compression: bytes, x: bytes)
    requires HelloStart(b) && |session| < 0x100 && |ciphers| < 0x1_0000 && |compression| < 0x100
    requires || (b[43..] == Vector8(session) + x && |x| < 2)
             || b[43..] == Vector8(session) + Vector16(ciphers)
             || (b[43..] == Vector8(session) + Vector16(ciphers) + Vector8(compression) + x && |x| < 2)
    ensures Scan(b) == NotFound
  {
    var y := b[43..];
    var i, j := 1 + |session|, 3 + |session| + |ciphers|;
    assert b[43] == y[0] == Vector8(session)[0];
    if y == Vector8(session) + x && |x| < 2 {
    } else if y == Vector8(session) + Vector16(ciphers) {
      assert b[43 + i] == y[i] == Vector16(ciphers)[0] && b[44 + i] == y[i + 1] == Vector16(ciphers)[1];
      assert U16(b, 43 + i) == U16(Vector16(ciphers), 0) == |ciphers|;
    } else {
      ThreeVectors(session, ciphers, compression, x);
      assert b[43 + i] == y[i] && b[44 + i] == y[i + 1] && b[43 + j] == y[j];
    }
  }
}
