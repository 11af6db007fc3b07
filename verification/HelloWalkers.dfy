/**
 The two ClientHello walkers compared through the list of extensions a hello carries: the extractor takes the
 first server_name extension for better or worse, the scan takes the first well-formed one.
 */
module HelloWalkers {
  import opened Bytes
  import opened ClientHello

  datatype Extension = Extension(kind: nat, body: bytes)

  /** The extensions between p and end, up to the first one that does not fit. */
  function Layout(b: bytes, p: nat, end: nat): seq<Extension>
    requires end <= |b|
    decreases end - p
  {
    if p + 4 > end || p + 4 + U16(b, p + 2) > end then []
    else
      var next := p + 4 + U16(b, p + 2);
      [Extension(U16(b, p), b[p + 4..next])] + Layout(b, next, end)
  }

  /** The host name of a server_name extension body, by section 3 of RFC 6066, when it is well formed. */
  function HostName(body: bytes): Option<bytes> {
    if |body| < 5 || U16(body, 0) < 3 || body[2] != 0 || 5 + U16(body, 3) > |body| then None
    else Some(body[5..5 + U16(body, 3)])
  }

  function FirstName(list: seq<Extension>): Option<bytes> {
    if list == [] then None
    else if list[0].kind == 0 then HostName(list[0].body)
    else FirstName(list[1..])
  }

  function FirstGoodName(list: seq<Extension>): Option<bytes> {
    if list == [] then None
    else if list[0].kind == 0 && HostName(list[0].body).Some? then HostName(list[0].body)
    else FirstGoodName(list[1..])
  }

  lemma BodyFields(b: bytes, q: nat, next: nat)
    requires q <= next <= |b|
    ensures var body := b[q..next];
            HostName(body) == if next - q < 5 || U16(b, q) < 3 || b[q + 2] != 0 || 5 + U16(b, q + 3) > next - q
                              then None
                              else Some(b[q + 5..q + 5 + U16(b, q + 3)])
  {
    var body := b[q..next];
    if next - q >= 5 {
      assert body[0] == b[q] && body[1] == b[q + 1] && body[2] == b[q + 2] && body[3] == b[q + 3]
             && body[4] == b[q + 4];
      var n := U16(b, q + 3);
      assert U16(body, 3) == n;
      if 5 + n <= next - q {
        SliceOfSlice(b, q, next, 5, 5 + n);
      }
    }
  }

  lemma {:induction false} ExtractTakesFirstName(b: bytes, p: nat, end: nat)
    requires end <= |b|
    ensures ExtractFromExtensions(b, p, end) == FirstName(Layout(b, p, end))
    decreases end - p
  {
    if p + 4 <= end && p + 4 + U16(b, p + 2) <= end {
      var next := p + 4 + U16(b, p + 2);
      var e := Extension(U16(b, p), b[p + 4..next]);
      LayoutStep(b, p, end);
      BodyFields(b, p + 4, next);
      assert ExtractFromExtensions(b, p, end) == if e.kind == 0 then HostName(e.body)
             else ExtractFromExtensions(b, next, end);
      FirstNameStep(e, Layout(b, next, end));
      hide *;
      ExtractTakesFirstName(b, next, end);
    }
  }

  lemma LayoutStep(b: bytes, p: nat, end: nat)
    requires end <= |b| && p + 4 <= end && p + 4 + U16(b, p + 2) <= end
    ensures var next := p + 4 + U16(b, p + 2);
            Layout(b, p, end) == [Extension(U16(b, p), b[p + 4..next])] + Layout(b, next, end)
  {
  }

  lemma FirstNameStep(e: Extension, rest: seq<Extension>)
    ensures FirstName([e] + rest) == if e.kind == 0 then HostName(e.body) else FirstName(rest)
    ensures FirstGoodName([e] + rest)
         == if e.kind == 0 && HostName(e.body).Some? then HostName(e.body) else FirstGoodName(rest)
  {
    assert ([e] + rest)[1..] == rest;
  }

  lemma {:induction false} ScanTakesFirstGoodName(b: bytes, p: nat, end: nat)
    requires end <= |b|
    ensures ScanExtensions(b, p, end)
         == match FirstGoodName(Layout(b, p, end)) case None => NotFound case Some(name) => Found(name)
    decreases end - p
  {
    if p + 4 <= end {
      var next := p + 4 + U16(b, p + 2);
      if next > end {
        assert Layout(b, p, end) == [] && Layout(b, next, end) == [];
        assert ScanExtensions(b, p, end) == ScanExtensions(b, next, end);
      } else {
        var e := Extension(U16(b, p), b[p + 4..next]);
        LayoutStep(b, p, end);
        BodyFields(b, p + 4, next);
        assert ScanExtensions(b, p, end)
            == if e.kind == 0 && HostName(e.body).Some? then Found(HostName(e.body).value)
               else ScanExtensions(b, next, end);
        FirstNameStep(e, Layout(b, next, end));
      }
      hide *;
      ScanTakesFirstGoodName(b, next, end);
    }
  }

  /** The extensions of a hello whose record, handshake and vectors all fit the data. */
  function ExtensionList(b: bytes): Option<seq<Extension>> {
    var at := ExtensionsAt(b);
    if at.None? || at.value + 2 > |b| || at.value + 2 + U16(b, at.value) > |b| then None
    else Some(Layout(b, at.value + 2, at.value + 2 + U16(b, at.value)))
  }

  lemma ExtractByExtensions(b: bytes)
    ensures Extract(b) == match ExtensionList(b) case None => None case Some(list) => FirstName(list)
  {
    var at := ExtensionsAt(b);
    if at.Some? && at.value + 2 <= |b| && at.value + 2 + U16(b, at.value) <= |b| {
      ExtractTakesFirstName(b, at.value + 2, at.value + 2 + U16(b, at.value));
    }
  }

  /** Once the extractor's checks have passed, the scan reaches the same extensions. */
  lemma ScanReachesExtensions(b: bytes)
    requires ExtensionList(b).Some?
    ensures var at := ExtensionsAt(b).value;
            Scan(b) == if |b| - at <= 2 then NotFound else ScanExtensions(b, at + 2, at + 2 + U16(b, at))
  {
    hide ScanExtensions, Layout;
    assert b[1] as int == U16(b, 1) / 256 == 3;
  }

  /** On a hello that fits the data, the scan stays in bounds and takes the first good name. */
  lemma ScanByExtensions(b: bytes)
    requires ExtensionList(b).Some?
    ensures Scan(b) == match FirstGoodName(ExtensionList(b).value) case None => NotFound case Some(name) => Found(name)
  {
    var at := ExtensionsAt(b).value;
    var end := at + 2 + U16(b, at);
    assert ExtensionList(b) == Some(Layout(b, at + 2, end));
    assert end <= |b|;
    assert end < at + 6 ==> Layout(b, at + 2, end) == [];
    assert FirstGoodName([]) == None;
    hide *;
    ScanReachesExtensions(b);
    ScanTakesFirstGoodName(b, at + 2, end);
  }

  /**
   Extract and scan differ, on such a hello, exactly if its first server_name extension is malformed and a later one
   is not.
   */
  lemma WalkersDifferIff(b: bytes)
    requires ExtensionList(b).Some?
    ensures (Scan(b) == match Extract(b) case None => NotFound case Some(name) => Found(name))
            <==> !SecondNameCounts(ExtensionList(b).value)
  {
    ExtractByExtensions(b);
    ScanByExtensions(b);
    DifferenceIsSecondName(ExtensionList(b).value);
  }

  /** The first server_name extension is malformed, and some later one is well formed. */
  predicate SecondNameCounts(list: seq<Extension>) {
    exists i, j :: 0 <= i < j < |list| && FirstNameAt(list, i) && HostName(list[i].body).None?
                   && list[j].kind == 0 && HostName(list[j].body).Some?
  }

  predicate FirstNameAt(list: seq<Extension>, i: nat) {
    i < |list| && list[i].kind == 0 && forall k :: 0 <= k < i ==> list[k].kind != 0
  }

  lemma {:induction false} GoodNameIff(list: seq<Extension>)
    ensures FirstGoodName(list).Some?
            <==> exists j :: 0 <= j < |list| && list[j].kind == 0 && HostName(list[j].body).Some?
  {
    hide HostName;
    if list != [] {
      GoodNameIff(list[1..]);
      if j :| 0 <= j < |list| && list[j].kind == 0 && HostName(list[j].body).Some? {
        if j > 0 { assert list[1..][j - 1] == list[j]; }
      }
    }
  }

  lemma {:induction false} DifferenceIsSecondName(list: seq<Extension>)
    ensures FirstName(list) != FirstGoodName(list) <==> SecondNameCounts(list)
  {
    hide HostName;
    if list != [] {
      var rest := list[1..];
      if list[0].kind == 0 {
        assert FirstNameAt(list, 0);
        GoodNameIff(rest);
        if j :| 0 <= j < |rest| && rest[j].kind == 0 && HostName(rest[j].body).Some? {
          assert list[j + 1] == rest[j];
        }
        if SecondNameCounts(list) {
          var i, j :| 0 <= i < j < |list| && FirstNameAt(list, i) && HostName(list[i].body).None?
                      && list[j].kind == 0 && HostName(list[j].body).Some?;
          assert i == 0 && rest[j - 1] == list[j];
        }
      } else {
        DifferenceIsSecondName(rest);
        if SecondNameCounts(rest) {
          var i, j :| 0 <= i < j < |rest| && FirstNameAt(rest, i) && HostName(rest[i].body).None?
                      && rest[j].kind == 0 && HostName(rest[j].body).Some?;
          assert list[i + 1] == rest[i] && list[j + 1] == rest[j];
          assert FirstNameAt(list, i + 1);
        }
        if SecondNameCounts(list) {
          var i, j :| 0 <= i < j < |list| && FirstNameAt(list, i) && HostName(list[i].body).None?
                      && list[j].kind == 0 && HostName(list[j].body).Some?;
          assert list[i] == rest[i - 1] && list[j] == rest[j - 1];
          assert FirstNameAt(rest, i - 1);
        }
      }
    }
  }
}
