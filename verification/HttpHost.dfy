/** HTTP requests: the Host header search of the extractor, against the lines of the request. */
module HttpHost {
  import opened Bytes
  import opened Text

  const LF: byte := 10
  const CR: byte := 13
  const COLON: byte := 58

  /** The first four bytes of the requests the extractor knows: GET , POST, PUT , HEAD, DELE, PATC and OPTI. */
  const METHODS: set<bytes> := {
    [71, 69, 84, 32], [80, 79, 83, 84], [80, 85, 84, 32], [72, 69, 65, 68], [68, 69, 76, 69], [80, 65, 84, 67],
    [79, 80, 84, 73]}

  /** HTTPHostExtractor::isHTTPRequest */
  predicate IsHttpRequest(payload: bytes) {
    |payload| >= 4 && payload[..4] in METHODS
  }

  /** std::tolower in the C locale */
  function LowerByte(b: byte): byte {
    if 65 <= b <= 90 then b + 32 else b
  }

  /** "host:" in any letter case. */
  predicate HostField(x: bytes) {
    && |x| >= 5 && LowerByte(x[0]) == 104 && LowerByte(x[1]) == 111 && LowerByte(x[2]) == 115
    && LowerByte(x[3]) == 116 && x[4] == COLON
  }

  lemma HostFieldIff(x: bytes)
    ensures HostField(x) <==>
            && |x| >= 5 && x[0] in {72, 104} && x[1] in {79, 111} && x[2] in {83, 115} && x[3] in {84, 116}
            && x[4] == 58
  {
  }

  predicate Blank(b: byte) {
    b == 32 || b == 9
  }

  function SkipBlanks(x: bytes): bytes {
    if x != [] && Blank(x[0]) then SkipBlanks(x[1..]) else x
  }

  function UntilEol(x: bytes): (r: bytes)
    ensures |r| <= |x| && r == x[..|r|]
  {
    if x == [] || x[0] == CR || x[0] == LF then [] else [x[0]] + UntilEol(x[1..])
  }

  function TrimEnd(x: bytes): bytes {
    if x != [] && Blank(x[|x| - 1]) then TrimEnd(x[..|x| - 1]) else x
  }

  function UntilColon(x: bytes): bytes {
    if x == [] || x[0] == COLON then [] else [x[0]] + UntilColon(x[1..])
  }

  /** What stands behind "host:", without blanks around it. */
  function Value(x: bytes): bytes {
    TrimEnd(UntilEol(SkipBlanks(x)))
  }

  /** The search from position i on. */
  function ExtractFrom(payload: bytes, i: nat): Option<bytes>
    decreases |payload| - i
  {
    if i + 6 >= |payload| then None
    else if payload[i] == LF && HostField(payload[i + 1..]) && Value(payload[i + 6..]) != [] then
      Some(UntilColon(Value(payload[i + 6..])))
    else ExtractFrom(payload, i + 1)
  }

  /** HTTPHostExtractor::extract */
  function Extract(payload: bytes): Option<bytes> {
    if IsHttpRequest(payload) then ExtractFrom(payload, 0) else None
  }

  // ---------------------------------------------------------------- the loops

  method SkipFrom(payload: bytes, start: nat) returns (lo: nat)
    requires start <= |payload|
    ensures start <= lo <= |payload| && payload[lo..] == SkipBlanks(payload[start..])
  {
    lo := start;
    while lo < |payload| && (payload[lo] == 32 || payload[lo] == 9)
      invariant start <= lo <= |payload|
      invariant SkipBlanks(payload[start..]) == SkipBlanks(payload[lo..])
    {
      assert payload[lo..][1..] == payload[lo + 1..];
      lo := lo + 1;
    }
  }

  method LineEnd(payload: bytes, lo: nat) returns (hi: nat)
    requires lo <= |payload|
    ensures lo <= hi <= |payload| && payload[lo..hi] == UntilEol(payload[lo..])
  {
    hide *;
    hi := lo;
    while hi < |payload| && payload[hi] != CR && payload[hi] != LF
      invariant lo <= hi <= |payload|
      invariant UntilEol(payload[lo..]) == payload[lo..hi] + UntilEol(payload[hi..])
    {
      LineStep(payload, lo, hi);
      hi := hi + 1;
    }
    LineStops(payload, hi);
  }

  lemma LineStep(payload: bytes, lo: nat, hi: nat)
    requires lo <= hi < |payload| && payload[hi] != CR && payload[hi] != LF
    ensures payload[lo..hi] + UntilEol(payload[hi..]) == payload[lo..hi + 1] + UntilEol(payload[hi + 1..])
  {
    var front, tail := payload[lo..hi], UntilEol(payload[hi + 1..]);
    assert payload[hi..][1..] == payload[hi + 1..];
    assert UntilEol(payload[hi..]) == [payload[hi]] + tail;
    hide *;
    ConcatAssociates(front, [payload[hi]], tail);
    assert front + [payload[hi]] == payload[lo..hi + 1];
  }

  lemma LineStops(payload: bytes, hi: nat)
    requires hi <= |payload| && (hi == |payload| || payload[hi] == CR || payload[hi] == LF)
    ensures UntilEol(payload[hi..]) == []
  {
  }

  method TrimBack(payload: bytes, lo: nat, end: nat) returns (hi: nat)
    requires lo <= end <= |payload|
    ensures lo <= hi <= end && payload[lo..hi] == TrimEnd(payload[lo..end])
  {
    hi := end;
    while hi > lo && (payload[hi - 1] == 32 || payload[hi - 1] == 9)
      invariant lo <= hi <= end
      invariant TrimEnd(payload[lo..hi]) == TrimEnd(payload[lo..end])
    {
      assert payload[lo..hi][..hi - lo - 1] == payload[lo..hi - 1];
      hi := hi - 1;
    }
  }

  method FindValue(payload: bytes, start: nat) returns (lo: nat, hi: nat)
    requires start <= |payload|
    ensures start <= lo <= hi <= |payload| && payload[lo..hi] == Value(payload[start..])
  {
    hide SkipBlanks, UntilEol, TrimEnd;
    lo := SkipFrom(payload, start);
    hi := LineEnd(payload, lo);
    hi := TrimBack(payload, lo, hi);
  }

  method CutAtColon(host: bytes) returns (r: bytes)
    ensures r == UntilColon(host)
  {
    var i := 0;
    while i < |host| && host[i] != COLON
      invariant i <= |host|
      invariant UntilColon(host) == host[..i] + UntilColon(host[i..])
    {
      assert host[i..][1..] == host[i + 1..];
      assert host[..i] + [host[i]] == host[..i + 1];
      i := i + 1;
    }
    assert UntilColon(host[i..]) == [];
    r := host[..i];
  }

  method ExtractHost(payload: bytes) returns (host: Option<bytes>)
    ensures host == Extract(payload)
  {
    if !IsHttpRequest(payload) { return None; }
    var i := 0;
    while i + 6 < |payload|
      invariant 0 <= i
      invariant ExtractFrom(payload, 0) == ExtractFrom(payload, i)
    {
      if payload[i] == LF {
        var start := i + 1;
        if start + 5 <= |payload| && LowerByte(payload[start]) == 104 && LowerByte(payload[start + 1]) == 111
          && LowerByte(payload[start + 2]) == 115 && LowerByte(payload[start + 3]) == 116
          && payload[start + 4] == COLON {
          assert HostField(payload[start..]);
          var lo, hi := FindValue(payload, start + 5);
          if hi > lo {
            var name := CutAtColon(payload[lo..hi]);
            return Some(name);
          }
        }
      }
      i := i + 1;
    }
    host := None;
  }

  // ---------------------------------------------------------------- the lines

  /** The host a header line names, if it is a Host header with a value. */
  function HostOfLine(line: bytes): Option<bytes> {
    if HostField(line) && Value(line[5..]) != [] then Some(UntilColon(Value(line[5..]))) else None
  }

  /** The first line that names a host. */
  function FirstHost(lines: seq<bytes>): Option<bytes> {
    if lines == [] then None
    else if HostOfLine(lines[0]).Some? then HostOfLine(lines[0])
    else FirstHost(lines[1..])
  }

  /** The first line of a text, and what comes behind it. */
  lemma {:induction false} FirstLine(x: bytes)
    ensures var line := Split(x, LF)[0];
            && |line| <= |x| && x[..|line|] == line && LF !in line
            && (|line| == |x| || x[|line|] == LF)
  {
    if x != [] && x[0] != LF {
      FirstLine(x[1..]);
      var rest := Split(x[1..], LF)[0];
      assert Split(x, LF)[0] == [x[0]] + rest;
      assert x[..1 + |rest|] == [x[0]] + x[1..][..|rest|];
    }
  }

  lemma {:induction false} ValueIgnoresNextLines(line: bytes, rest: bytes)
    requires LF !in line
    ensures Value(line + [LF] + rest) == Value(line)
    decreases |line|
  {
    var x := line + [LF] + rest;
    if line != [] && Blank(line[0]) {
      assert x[0] == line[0] && x[1..] == line[1..] + [LF] + rest;
      ValueIgnoresNextLines(line[1..], rest);
    } else {
      if line != [] { assert x[0] == line[0]; }
      assert SkipBlanks(x) == x && SkipBlanks(line) == line;
      EolStops(line, rest);
    }
  }

  lemma {:induction false} EolStops(line: bytes, rest: bytes)
    requires LF !in line
    ensures UntilEol(line + [LF] + rest) == UntilEol(line)
  {
    var x := line + [LF] + rest;
    if line != [] {
      assert x[0] == line[0] && x[1..] == line[1..] + [LF] + rest;
      EolStops(line[1..], rest);
    }
  }

  /** Header field and value are the same on the line as in the text from there on. */
  lemma LineDecides(x: bytes)
    ensures var line := Split(x, LF)[0];
            (HostField(x) && Value(x[5..]) != [] <==> HostOfLine(line).Some?)
            && (HostField(x) && Value(x[5..]) != [] ==> HostOfLine(line) == Some(UntilColon(Value(x[5..]))))
  {
    FirstLine(x);
    var line := Split(x, LF)[0];
    hide Split, Value, UntilColon;
    FieldOnLine(x, line);
    if HostField(line) {
      if |line| == |x| {
        assert x == line;
      } else {
        assert x[5..] == line[5..] + [LF] + x[|line| + 1..];
        ValueIgnoresNextLines(line[5..], x[|line| + 1..]);
      }
    }
  }

  lemma FieldOnLine(x: bytes, line: bytes)
    requires |line| <= |x| && x[..|line|] == line && (|line| == |x| || x[|line|] == LF)
    ensures HostField(x) <==> HostField(line)
  {
    assert forall k :: 0 <= k < |line| ==> line[k] == x[k];
  }

  lemma SplitTail(x: bytes)
    requires x != []
    ensures Split(x, LF)[1..] == if x[0] == LF then Split(x[1..], LF) else Split(x[1..], LF)[1..]
  {
  }

  lemma FirstHostStep(lines: seq<bytes>)
    requires lines != []
    ensures FirstHost(lines) == if HostOfLine(lines[0]).Some? then HostOfLine(lines[0]) else FirstHost(lines[1..])
  {
  }

  /** A line of at most five bytes names no host. */
  lemma ShortLine(line: bytes)
    requires |line| <= 5
    ensures HostOfLine(line) == None
  {
    if |line| == 5 { assert line[5..] == []; }
  }

  lemma {:induction false} NothingNearEnd(payload: bytes, i: nat)
    requires i <= |payload| <= i + 6
    ensures FirstHost(Split(payload[i..], LF)[1..]) == None
    decreases |payload| - i
  {
    var x := payload[i..];
    if x != [] {
      assert x[1..] == payload[i + 1..];
      NothingNearEnd(payload, i + 1);
      SplitTail(x);
      if x[0] == LF {
        FirstLine(x[1..]);
        ShortLine(Split(x[1..], LF)[0]);
        FirstHostStep(Split(x[1..], LF));
      }
    }
    hide Split, HostOfLine;
  }

  lemma {:induction false} SearchGoesByLines(payload: bytes, i: nat)
    requires i <= |payload|
    ensures ExtractFrom(payload, i) == FirstHost(Split(payload[i..], LF)[1..])
    decreases |payload| - i
  {
    hide Split, HostOfLine, Value, UntilColon, HostField, FirstHost;
    if i + 6 >= |payload| {
      NothingNearEnd(payload, i);
    } else {
      var x := payload[i..];
      assert x[1..] == payload[i + 1..] && x[0] == payload[i];
      SearchGoesByLines(payload, i + 1);
      SplitTail(x);
      if x[0] == LF {
        LineDecides(x[1..]);
        assert payload[i + 1..][5..] == payload[i + 6..];
        FirstHostStep(Split(x[1..], LF));
      }
    }
  }

  /** The extractor names the host of the first Host header with a value, among the lines behind the request line. */
  lemma ExtractsFirstHost(payload: bytes)
    ensures Extract(payload) == if IsHttpRequest(payload) then FirstHost(Split(payload, LF)[1..]) else None
  {
    assert payload[0..] == payload;
    SearchGoesByLines(payload, 0);
    hide Split, FirstHost, ExtractFrom, IsHttpRequest;
  }

  // ---------------------------------------------------------------- requests

  /** A host as a header names it: no blanks around it, no colon, no end of line. */
  predicate PlainHost(host: bytes) {
    && host != [] && !Blank(host[0]) && !Blank(host[|host| - 1])
    && LF !in host && CR !in host && COLON !in host
  }

  /** "Host", colon, blanks, the host, a port or none, blanks, carriage return. */
  function HostLine(name: bytes, before: bytes, host: bytes, port: bytes, after: bytes): bytes {
    name + [COLON] + before + host + port + after + [CR]
  }

  predicate AllBlank(x: bytes) {
    forall b <- x :: Blank(b)
  }

  lemma {:induction false} BlanksSkipped(before: bytes, x: bytes)
    requires AllBlank(before) && x != [] && !Blank(x[0])
    ensures SkipBlanks(before + x) == x
  {
    if before == [] {
      assert before + x == x;
    } else {
      assert before[0] in before && forall b <- before[1..] :: b in before;
      assert (before + x)[1..] == before[1..] + x;
      BlanksSkipped(before[1..], x);
    }
  }

  lemma {:induction false} EolEnds(x: bytes, rest: bytes)
    requires LF !in x && CR !in x
    ensures UntilEol(x + [CR] + rest) == x
  {
    var y := x + [CR] + rest;
    if x != [] {
      assert x[0] in x && forall b <- x[1..] :: b in x;
      assert y[1..] == x[1..] + [CR] + rest;
      EolEnds(x[1..], rest);
      assert x == [x[0]] + x[1..];
    }
  }

  lemma {:induction false} BlanksTrimmed(x: bytes, after: bytes)
    requires AllBlank(after) && x != [] && !Blank(x[|x| - 1])
    ensures TrimEnd(x + after) == x
    decreases |after|
  {
    if after == [] {
      assert x + after == x;
    } else {
      var last := after[|after| - 1];
      assert last in after && forall b <- after[..|after| - 1] :: b in after;
      assert (x + after)[..|x + after| - 1] == x + after[..|after| - 1];
      BlanksTrimmed(x, after[..|after| - 1]);
    }
  }

  lemma {:induction false} ColonEnds(host: bytes, port: bytes)
    requires COLON !in host && (port == [] || port[0] == COLON)
    ensures UntilColon(host + port) == host
  {
    if host == [] {
      assert host + port == port;
    } else {
      assert host[0] in host && forall b <- host[1..] :: b in host;
      assert (host + port)[1..] == host[1..] + port;
      ColonEnds(host[1..], port);
      assert host == [host[0]] + host[1..];
    }
  }

  /** A port: a colon and digits, or nothing. */
  predicate Port(port: bytes) {
    port == [] || (port[0] == COLON && |port| > 1 && forall i :: 1 <= i < |port| ==> 48 <= port[i] <= 57)
  }

  /** Such a line names its host. */
  lemma HostLineNames(name: bytes, before: bytes, host: bytes, port: bytes, after: bytes)
    requires |name| == 4 && HostField(name + [COLON]) && AllBlank(before) && AllBlank(after)
    requires PlainHost(host) && Port(port)
    ensures HostOfLine(HostLine(name, before, host, port, after)) == Some(host)
  {
    var line := HostLine(name, before, host, port, after);
    var body := host + port;
    assert forall k :: 0 <= k < 5 ==> line[k] == (name + [COLON])[k];
    assert HostField(line);
    assert line[5..] == before + (body + after + [CR]);
    var text := body + after;
    assert text[0] == host[0];
    assert (text + [CR])[0] == host[0];
    BlanksSkipped(before, text + [CR]);
    assert text + [CR] + [] == text + [CR];
    assert LF !in text && CR !in text by {
      forall b | b in text
        ensures b != LF && b != CR
      {
        assert b in host || b in port || b in after;
      }
    }
    EolEnds(text, []);
    assert body != [] && !Blank(body[|body| - 1]);
    BlanksTrimmed(body, after);
    ColonEnds(host, port);
    assert Value(line[5..]) == body;
  }

  lemma {:induction false} FirstHostAfter(others: seq<bytes>, lines: seq<bytes>)
    requires forall line <- others :: !HostField(line)
    ensures FirstHost(others + lines) == FirstHost(lines)
  {
    if others == [] {
      assert others + lines == lines;
    } else {
      assert others[0] in others && (others + lines)[1..] == others[1..] + lines;
      FirstHostAfter(others[1..], lines);
    }
  }

  /** Of a request whose Host header comes after others the extractor names the host, in any spelling of the header. */
  lemma ExtractUndoesRequest(request: bytes, others: seq<bytes>, name: bytes, before: bytes, host: bytes, port: bytes,
                             after: bytes, rest: seq<bytes>)
    requires IsHttpRequest(request) && LF !in request && forall line <- others :: LF !in line && !HostField(line)
    requires forall line <- rest :: LF !in line
    requires |name| == 4 && HostField(name + [COLON]) && AllBlank(before) && AllBlank(after)
    requires PlainHost(host) && Port(port)
    ensures Extract(Join([request] + others + [HostLine(name, before, host, port, after)] + rest, LF)) == Some(host)
  {
    var line := HostLine(name, before, host, port, after);
    var lines := [request] + others + [line] + rest;
    var payload := Join(lines, LF);
    assert LF !in line by {
      forall b | b in line
        ensures b != LF
      {
        assert b in name || b == COLON || b in before || b in host || b in port || b in after || b == CR;
        if b in name {
          var k :| 0 <= k < 4 && name[k] == b;
          assert (name + [COLON])[k] == b;
        }
      }
    }
    forall i | 0 <= i < |lines|
      ensures LF !in lines[i]
    {
      assert lines[i] == request || lines[i] in others || lines[i] == line || lines[i] in rest;
    }
    SplitJoin(lines, LF);
    assert |lines| >= 2 && payload == request + [LF] + Join(lines[1..], LF);
    assert payload[..4] == request[..4];
    ExtractsFirstHost(payload);
    assert lines[1..] == others + ([line] + rest);
    FirstHostAfter(others, [line] + rest);
    HostLineNames(name, before, host, port, after);
    assert ([line] + rest)[0] == line;
  }
}
