/** DNS questions: the name reader with compression pointers, the query extractor, and the query encoder. */
module Dns {
  import opened Bytes
  import opened Text

  const DOT: byte := 46

  const MAX_JUMPS: nat := 10

  /** Outcome of readDomainName: success flag, the dotted name, and the caller's next offset. */
  datatype Name = Name(ok: bool, domain: bytes, offset: nat)

  function Extend(domain: bytes, part: bytes): bytes {
    if domain == [] then part else domain + [DOT] + part
  }

  function Pointer(payload: bytes, offset: nat): nat
    requires offset + 1 < |payload|
  {
    payload[offset] as int % 64 * 256 + payload[offset + 1] as int
  }

  /** readDomainName from the middle of its loop; resume is the offset after the first pointer followed, or -1. */
  function ReadFrom(payload: bytes, offset: nat, domain: bytes, resume: int, jumps: nat): Name
    requires jumps <= MAX_JUMPS
    decreases MAX_JUMPS - jumps, |payload| - offset
  {
    if offset >= |payload| || payload[offset] == 0 then
      Name(domain != [], domain, if resume >= 0 then resume else offset)
    else if payload[offset] >= 192 then
      if offset + 1 >= |payload| then Name(false, domain, offset)
      else
        var target := Pointer(payload, offset);
        if target >= |payload| || target < 12 then Name(false, domain, offset)
        else if jumps == MAX_JUMPS then Name(false, domain, target)
        else ReadFrom(payload, target, domain, if resume >= 0 then resume else offset + 2, jumps + 1)
    else
      var end := offset + 1 + payload[offset] as int;
      if end > |payload| then Name(false, domain, offset + 1)
      else ReadFrom(payload, end, Extend(domain, payload[offset + 1..end]), resume, jumps)
  }

  /**
   One round of readDomainName's loop, at a byte that is not the terminator: it fails, or goes on behind a label or
   at a pointer's target.
   */
  method ReadRound(payload: bytes, offset: nat, domain: bytes, resume: int, jumps: nat)
    returns (failed: bool, name: Name, nextOffset: nat, nextDomain: bytes, nextResume: int, nextJumps: nat)
    requires jumps <= MAX_JUMPS && offset < |payload| && payload[offset] != 0
    ensures nextJumps <= MAX_JUMPS
    ensures failed ==> name == ReadFrom(payload, offset, domain, resume, jumps)
    ensures !failed ==>
              && ReadFrom(payload, nextOffset, nextDomain, nextResume, nextJumps)
                 == ReadFrom(payload, offset, domain, resume, jumps)
              && (nextJumps > jumps || (nextJumps == jumps && nextOffset > offset))
  {
    var length := payload[offset];
    failed, name := true, Name(false, domain, offset);
    nextOffset, nextDomain, nextResume, nextJumps := offset, domain, resume, jumps;
    if length >= 192 {
      JumpRound(payload, offset, domain, resume, jumps);
      hide *;
      if offset + 1 >= |payload| { return; }
      var target := Pointer(payload, offset);
      if target >= |payload| || target < 12 { return; }
      if jumps + 1 > MAX_JUMPS {
        name := Name(false, domain, target);
        return;
      }
      failed, nextOffset, nextJumps := false, target, jumps + 1;
      if resume < 0 { nextResume := offset + 2; }
    } else {
      LabelRound(payload, offset, domain, resume, jumps);
      hide *;
      var end := offset + 1 + length as int;
      if end > |payload| {
        name := Name(false, domain, offset + 1);
        return;
      }
      failed, nextOffset, nextDomain := false, end, Extend(domain, payload[offset + 1..end]);
    }
  }

  /** readDomainName: terminates on every input, since each round jumps or moves forward. */
  method ReadDomainName(payload: bytes, start: nat) returns (name: Name)
    ensures name == ReadFrom(payload, start, [], -1, 0)
  {
    hide *;
    var offset: nat := start;
    var resume: int := -1;
    var jumps: nat := 0;
    var domain: bytes := [];
    ghost var whole := ReadFrom(payload, start, [], -1, 0);
    while offset < |payload| && payload[offset] != 0
      invariant jumps <= MAX_JUMPS
      invariant whole == ReadFrom(payload, offset, domain, resume, jumps)
      decreases MAX_JUMPS - jumps, |payload| - offset
    {
      var failed;
      failed, name, offset, domain, resume, jumps := ReadRound(payload, offset, domain, resume, jumps);
      if failed { return; }
    }
    LastRound(payload, offset, domain, resume, jumps);
    name := Name(domain != [], domain, if resume >= 0 then resume else offset);
  }

  lemma LastRound(payload: bytes, offset: nat, domain: bytes, resume: int, jumps: nat)
    requires jumps <= MAX_JUMPS && (offset >= |payload| || payload[offset] == 0)
    ensures ReadFrom(payload, offset, domain, resume, jumps)
         == Name(domain != [], domain, if resume >= 0 then resume else offset)
  {
  }

  lemma JumpRound(payload: bytes, offset: nat, domain: bytes, resume: int, jumps: nat)
    requires jumps <= MAX_JUMPS && offset < |payload| && payload[offset] >= 192
    ensures ReadFrom(payload, offset, domain, resume, jumps) ==
            if offset + 1 >= |payload| || !(12 <= Pointer(payload, offset) < |payload|) then Name(false, domain, offset)
            else if jumps == MAX_JUMPS then Name(false, domain, Pointer(payload, offset))
            else ReadFrom(payload, Pointer(payload, offset), domain,
                          if resume >= 0 then resume else offset + 2, jumps + 1)
  {
  }

  lemma LabelRound(payload: bytes, offset: nat, domain: bytes, resume: int, jumps: nat)
    requires jumps <= MAX_JUMPS && offset < |payload| && 0 < payload[offset] < 192
    ensures var end := offset + 1 + payload[offset] as int;
            ReadFrom(payload, offset, domain, resume, jumps) ==
            if end > |payload| then Name(false, domain, offset + 1)
            else ReadFrom(payload, end, Extend(domain, payload[offset + 1..end]), resume, jumps)
  {
  }

  // ---------------------------------------------------------------- what a name is

  /**
   The labels at an offset, by section 4.1.4 of RFC 1035: labels of at most `limit` bytes, pointers followed
   exactly `jumps` times, a zero byte at the end. With `open` set the data may also simply stop.
   */
  ghost predicate Spells(payload: bytes, offset: nat, labels: seq<bytes>, jumps: nat, limit: nat, open: bool)
    decreases jumps, |payload| - offset
  {
    if offset >= |payload| then open && labels == [] && jumps == 0
    else if payload[offset] == 0 then labels == [] && jumps == 0
    else if payload[offset] >= 192 then
      && jumps > 0 && offset + 1 < |payload| && 12 <= Pointer(payload, offset) < |payload|
      && Spells(payload, Pointer(payload, offset), labels, jumps - 1, limit, open)
    else
      var end := offset + 1 + payload[offset] as int;
      && labels != [] && payload[offset] as int <= limit && end <= |payload| && labels[0] == payload[offset + 1..end]
      && Spells(payload, end, labels[1..], jumps, limit, open)
  }

  /** The labels appended to a name already read. */
  function ExtendAll(domain: bytes, labels: seq<bytes>): bytes
    decreases |labels|
  {
    if labels == [] then domain else ExtendAll(Extend(domain, labels[0]), labels[1..])
  }

  lemma {:induction false} ExtendAllIsJoin(domain: bytes, labels: seq<bytes>)
    requires labels != [] && forall i :: 0 <= i < |labels| ==> labels[i] != []
    ensures ExtendAll(domain, labels) == Extend(domain, Join(labels, DOT))
    decreases |labels|
  {
    if |labels| > 1 {
      ExtendAllIsJoin(Extend(domain, labels[0]), labels[1..]);
      var j := Join(labels[1..], DOT);
      assert domain + [DOT] + labels[0] + [DOT] + j == domain + [DOT] + (labels[0] + [DOT] + j);
    } else {
      assert ExtendAll(Extend(domain, labels[0]), labels[1..]) == Extend(domain, labels[0]);
    }
  }

  lemma {:induction false} SpelledLabelsNonEmpty(payload: bytes, offset: nat, labels: seq<bytes>, jumps: nat,
                                                 limit: nat, open: bool)
    requires Spells(payload, offset, labels, jumps, limit, open)
    ensures forall i :: 0 <= i < |labels| ==> labels[i] != []
    decreases jumps, |payload| - offset
  {
    if offset < |payload| && payload[offset] != 0 {
      if payload[offset] >= 192 {
        SpelledLabelsNonEmpty(payload, Pointer(payload, offset), labels, jumps - 1, limit, open);
      } else {
        SpelledLabelsNonEmpty(payload, offset + 1 + payload[offset] as int, labels[1..], jumps, limit, open);
        assert labels == [labels[0]] + labels[1..];
      }
    }
  }

  lemma {:induction false} ReaderFollowsSpelling(payload: bytes, offset: nat, domain: bytes, resume: int, done: nat,
                                                 labels: seq<bytes>, jumps: nat, limit: nat, open: bool)
    requires Spells(payload, offset, labels, jumps, limit, open) && done + jumps <= MAX_JUMPS
    ensures var r := ReadFrom(payload, offset, domain, resume, done);
            r.domain == ExtendAll(domain, labels) && r.ok == (ExtendAll(domain, labels) != [])
    decreases jumps, |payload| - offset
  {
    hide ReadFrom;
    if offset >= |payload| || payload[offset] == 0 {
      LastRound(payload, offset, domain, resume, done);
    } else {
      if payload[offset] >= 192 {
        JumpRound(payload, offset, domain, resume, done);
        ReaderFollowsSpelling(payload, Pointer(payload, offset), domain, if resume >= 0 then resume else offset + 2,
                              done + 1, labels, jumps - 1, limit, open);
      } else {
        LabelRound(payload, offset, domain, resume, done);
        ReaderFollowsSpelling(payload, offset + 1 + payload[offset] as int, Extend(domain, labels[0]), resume, done,
                              labels[1..], jumps, limit, open);
      }
    }
  }

  /**
   The reader computes the name of section 4.1.4 of RFC 1035: every terminated, non-empty name with labels of at
   most 63 bytes (the code even takes 191) that uses at most ten pointers, each to offset 12 or later.
   */
  lemma ReadsEveryName(payload: bytes, offset: nat, labels: seq<bytes>, jumps: nat, limit: nat, open: bool)
    requires Spells(payload, offset, labels, jumps, limit, open) && labels != [] && jumps <= 10
    ensures var r := ReadFrom(payload, offset, [], -1, 0);
            r.ok && r.domain == Join(labels, DOT)
  {
    ReaderFollowsSpelling(payload, offset, [], -1, 0, labels, jumps, limit, open);
    SpelledLabelsNonEmpty(payload, offset, labels, jumps, limit, open);
    ExtendAllIsJoin([], labels);
    JoinNonEmpty(labels);
  }

  /** Conversely a name that is read was spelled there, up to a missing terminator and labels of up to 191 bytes. */
  lemma {:induction false} OnlyReadsSpelledNames(payload: bytes, offset: nat, domain: bytes, resume: int, done: nat)
    returns (labels: seq<bytes>, jumps: nat)
    requires done <= MAX_JUMPS && ReadFrom(payload, offset, domain, resume, done).ok
    ensures done + jumps <= MAX_JUMPS && Spells(payload, offset, labels, jumps, 191, true)
    ensures ReadFrom(payload, offset, domain, resume, done).domain == ExtendAll(domain, labels)
    decreases MAX_JUMPS - done, |payload| - offset
  {
    if offset >= |payload| || payload[offset] == 0 {
      labels, jumps := [], 0;
    } else if payload[offset] >= 192 {
      labels, jumps := OnlyReadsSpelledNames(payload, Pointer(payload, offset), domain,
                                             if resume >= 0 then resume else offset + 2, done + 1);
      jumps := jumps + 1;
    } else {
      var end := offset + 1 + payload[offset] as int;
      var part := payload[offset + 1..end];
      var rest;
      rest, jumps := OnlyReadsSpelledNames(payload, end, Extend(domain, part), resume, done);
      labels := [part] + rest;
      assert labels[1..] == rest;
    }
  }

  /** A non-empty name that the data spells with at most ten pointers. */
  ghost predicate NameAt(payload: bytes, offset: nat, domain: bytes) {
    exists labels: seq<bytes>, jumps: nat ::
      Spells(payload, offset, labels, jumps, 191, true) && labels != [] && jumps <= 10
        && domain == Join(labels, DOT)
  }

  /** Exactly the names the reader accepts. */
  lemma ReadsExactly(payload: bytes, offset: nat, domain: bytes)
    ensures NameAt(payload, offset, domain) <==>
            var r := ReadFrom(payload, offset, [], -1, 0); r.ok && r.domain == domain
  {
    var r := ReadFrom(payload, offset, [], -1, 0);
    if r.ok && r.domain == domain {
      var labels, jumps := OnlyReadsSpelledNames(payload, offset, [], -1, 0);
      SpelledNameNonEmpty(payload, offset, labels, jumps);
      ReadsEveryName(payload, offset, labels, jumps, 191, true);
    }
    if NameAt(payload, offset, domain) {
      var labels: seq<bytes>, jumps: nat :|
        Spells(payload, offset, labels, jumps, 191, true) && labels != [] && jumps <= 10
          && domain == Join(labels, DOT);
      ReadsEveryName(payload, offset, labels, jumps, 191, true);
    }
  }

  lemma SpelledNameNonEmpty(payload: bytes, offset: nat, labels: seq<bytes>, jumps: nat)
    requires Spells(payload, offset, labels, jumps, 191, true) && jumps <= MAX_JUMPS
    requires ReadFrom(payload, offset, [], -1, 0).ok
    ensures labels != []
  {
    ReaderFollowsSpelling(payload, offset, [], -1, 0, labels, jumps, 191, true);
  }

  lemma JoinNonEmpty(labels: seq<bytes>)
    requires labels != [] && labels[0] != []
    ensures Join(labels, DOT) != []
  {
  }

  // ---------------------------------------------------------------- queries

  datatype DnsResult = DnsResult(transactionId: nat, flags: nat, questionCount: nat, answerCount: nat,
    queryDomain: bytes)

  predicate IsDnsQuery(payload: bytes) {
    12 <= |payload| && payload[2] < 128 && U16(payload, 4) > 0
  }

  /** DNSExtractor::extractQuery */
  function ExtractQuery(payload: bytes): Option<DnsResult> {
    if !IsDnsQuery(payload) then None
    else
      var name := ReadFrom(payload, 12, [], -1, 0);
      if !name.ok then None
      else Some(DnsResult(U16(payload, 0), U16(payload, 2), U16(payload, 4), U16(payload, 6), name.domain))
  }

  predicate Packable(labels: seq<bytes>) {
    forall i :: 0 <= i < |labels| ==> |labels[i]| < 256
  }

  /** No label's length byte reads as a terminator or as a pointer. */
  predicate Readable(labels: seq<bytes>) {
    forall i :: 0 <= i < |labels| ==> 1 <= |labels[i]| <= 191
  }

  function EncodeLabels(labels: seq<bytes>): bytes
    requires Packable(labels)
  {
    if labels == [] then [] else [|labels[0]|] + labels[0] + EncodeLabels(labels[1..])
  }

  /** create_dns_query: header, one question of type A class IN; struct.pack fails on a label over 255 bytes. */
  method CreateDnsQuery(domain: bytes, transactionId: nat) returns (query: bytes)
    requires transactionId < 0x1_0000
    requires Packable(Split(domain, DOT))
    ensures query == Query(Split(domain, DOT), transactionId)
  {
    var labels := Split(domain, DOT);
    var question: bytes := [];
    var i := 0;
    while i < |labels|
      invariant i <= |labels|
      invariant question + EncodeLabels(labels[i..]) == EncodeLabels(labels)
    {
      LabelAppended(question, labels[i..]);
      assert labels[i..][1..] == labels[i + 1..];
      question := question + [|labels[i]|] + labels[i];
      i := i + 1;
    }
    assert question == EncodeLabels(labels);
    hide Header, EncodeLabels;
    question := question + [0];
    question := question + [0, 1, 0, 1];
    query := Header(transactionId) + question;
  }

  lemma LabelAppended(question: bytes, labels: seq<bytes>)
    requires Packable(labels) && labels != []
    ensures question + [|labels[0]|] + labels[0] + EncodeLabels(labels[1..]) == question + EncodeLabels(labels)
  {
    var first: bytes := [|labels[0]|];
    var rest := EncodeLabels(labels[1..]);
    assert EncodeLabels(labels) == first + labels[0] + rest;
    hide *;
    ConcatAssociates(question, first, labels[0]);
    ConcatAssociates(question, first + labels[0], rest);
  }

  function Header(transactionId: nat): bytes
    requires transactionId < 0x1_0000
  {
    var counts: bytes := [0, 1, 0, 0, 0, 0, 0, 0];
    Pack16(transactionId) + Pack16(0x0100) + counts
  }

  function Query(labels: seq<bytes>, transactionId: nat): bytes
    requires transactionId < 0x1_0000 && Packable(labels)
  {
    var terminator: bytes := [0];
    var trailer: bytes := [0, 1, 0, 1];
    Header(transactionId) + (EncodeLabels(labels) + terminator + trailer)
  }

  /** The encoded labels spell themselves. */
  lemma {:induction false} EncodingSpells(before: bytes, labels: seq<bytes>, rest: bytes)
    requires Readable(labels) && rest != [] && rest[0] == 0
    ensures Spells(before + EncodeLabels(labels) + rest, |before|, labels, 0, 191, false)
    decreases |labels|
  {
    var payload := before + EncodeLabels(labels) + rest;
    if labels == [] {
      assert payload[|before|] == rest[0];
    } else {
      var first: bytes := [|labels[0]|] + labels[0];
      EncodingSpells(before + first, labels[1..], rest);
      assert EncodeLabels(labels) == first + EncodeLabels(labels[1..]);
      assert payload == before + first + EncodeLabels(labels[1..]) + rest;
      assert payload[|before|] == first[0];
      assert payload[|before| + 1..|before| + |first|] == labels[0];
    }
  }

  /**
   extractQuery undoes create_dns_query for every list of dot-free labels of 1 to 191 bytes, so of 1 to 63 in
   particular.
   */
  lemma ExtractUndoesQuery(labels: seq<bytes>, transactionId: nat)
    requires transactionId < 0x1_0000 && labels != []
    requires Readable(labels) && forall i :: 0 <= i < |labels| ==> DOT !in labels[i]
    ensures Split(Join(labels, DOT), DOT) == labels
    ensures ExtractQuery(Query(labels, transactionId))
            == Some(DnsResult(transactionId, 0x0100, 1, 0, Join(labels, DOT)))
  {
    SplitJoin(labels, DOT);
    QueryShape(labels, transactionId);
    hide Header, EncodeLabels, ReadFrom, Spells, Join, Split;
    var terminator: bytes := [0];
    var trailer: bytes := [0, 1, 0, 1];
    var rest := terminator + trailer;
    var query := Query(labels, transactionId);
    EncodingSpells(Header(transactionId), labels, rest);
    ReadsEveryName(query, 12, labels, 0, 191, false);
    HeaderFields(transactionId, EncodeLabels(labels) + rest);
  }

  lemma QueryShape(labels: seq<bytes>, transactionId: nat)
    requires transactionId < 0x1_0000 && Readable(labels)
    ensures var terminator: bytes := [0];
            var trailer: bytes := [0, 1, 0, 1];
            && Query(labels, transactionId) == Header(transactionId) + EncodeLabels(labels) + (terminator + trailer)
            && Query(labels, transactionId) == Header(transactionId) + (EncodeLabels(labels) + (terminator + trailer))
  {
    var terminator: bytes := [0];
    var trailer: bytes := [0, 1, 0, 1];
    assert EncodeLabels(labels) + terminator + trailer == EncodeLabels(labels) + (terminator + trailer);
    assert Header(transactionId) + (EncodeLabels(labels) + (terminator + trailer))
        == Header(transactionId) + EncodeLabels(labels) + (terminator + trailer);
  }

  lemma HeaderFields(transactionId: nat, rest: bytes)
    requires transactionId < 0x1_0000
    ensures var q := Header(transactionId) + rest;
            && |Header(transactionId)| == 12 && IsDnsQuery(q) && U16(q, 0) == transactionId && U16(q, 2) == 0x0100
            && U16(q, 4) == 1 && U16(q, 6) == 0
  {
    var h := Header(transactionId);
    var q := h + rest;
    assert q[0] == h[0] && q[1] == h[1] && q[2] == h[2] && q[3] == h[3];
    assert q[4] == h[4] && q[5] == h[5] && q[6] == h[6] && q[7] == h[7];
  }

  // ---------------------------------------------------------------- what is refused, and where the reader stops

  /**
   Exactly the messages a query is extracted from: a whole header, the response bit clear, at least one question, and
   at offset 12 a non-empty name spelled with at most ten pointers. The rest is read from the header.
   */
  lemma ExtractsIff(payload: bytes, r: DnsResult)
    ensures ExtractQuery(payload) == Some(r) <==>
            && 12 <= |payload| && payload[2] as bv8 & 0x80 == 0 && U16(payload, 4) >= 1
            && NameAt(payload, 12, r.queryDomain)
            && r.transactionId == U16(payload, 0) && r.flags == U16(payload, 2)
            && r.questionCount == U16(payload, 4) && r.answerCount == U16(payload, 6)
  {
    ReadsExactly(payload, 12, r.queryDomain);
    if 12 <= |payload| { HighBit(payload[2]); }
    hide ReadFrom, NameAt;
  }

  lemma HighBit(b: byte)
    ensures b as bv8 & 0x80 == 0 <==> b < 128
  {
  }

  /** Where the labels at an offset end: at the terminator, at a pointer, at a label cut off, or with the data. */
  function LabelsEnd(payload: bytes, offset: nat): nat
    decreases |payload| - offset
  {
    if offset >= |payload| || payload[offset] == 0 || payload[offset] >= 192 then offset
    else
      var end := offset + 1 + payload[offset] as int;
      if end > |payload| then offset else LabelsEnd(payload, end)
  }

  lemma {:induction false} ReaderReturns(payload: bytes, offset: nat, domain: bytes, resume: nat, jumps: nat)
    requires jumps <= MAX_JUMPS
    ensures var r := ReadFrom(payload, offset, domain, resume, jumps);
            r.ok ==> r.offset == resume
    decreases MAX_JUMPS - jumps, |payload| - offset
  {
    hide ReadFrom;
    if offset >= |payload| || payload[offset] == 0 {
      LastRound(payload, offset, domain, resume, jumps);
    } else if payload[offset] >= 192 {
      JumpRound(payload, offset, domain, resume, jumps);
      if offset + 1 < |payload| && 12 <= Pointer(payload, offset) < |payload| && jumps < MAX_JUMPS {
        ReaderReturns(payload, Pointer(payload, offset), domain, resume, jumps + 1);
      }
    } else {
      LabelRound(payload, offset, domain, resume, jumps);
      var end := offset + 1 + payload[offset] as int;
      if end <= |payload| {
        ReaderReturns(payload, end, Extend(domain, payload[offset + 1..end]), resume, jumps);
      }
    }
  }

  /** The caller goes on where the labels end, or behind the first pointer. */
  lemma {:induction false} ReaderStops(payload: bytes, offset: nat, domain: bytes)
    ensures var r, end := ReadFrom(payload, offset, domain, -1, 0), LabelsEnd(payload, offset);
            r.ok ==> r.offset == if end < |payload| && payload[end] >= 192 then end + 2 else end
    decreases |payload| - offset
  {
    hide ReadFrom;
    if offset >= |payload| || payload[offset] == 0 {
      LastRound(payload, offset, domain, -1, 0);
    } else if payload[offset] >= 192 {
      JumpRound(payload, offset, domain, -1, 0);
      if offset + 1 < |payload| && 12 <= Pointer(payload, offset) < |payload| {
        ReaderReturns(payload, Pointer(payload, offset), domain, offset + 2, 1);
      }
    } else {
      LabelRound(payload, offset, domain, -1, 0);
      var end := offset + 1 + payload[offset] as int;
      if end <= |payload| {
        ReaderStops(payload, end, Extend(domain, payload[offset + 1..end]));
      }
    }
  }
}
