/**
 End to end: a stream that begins with the ClientHello record of a host, cut, reordered, duplicated and
 overlapped in any way, makes the reassembler report exactly that host, on exactly the completing call.
 */
module SniDelivery {
  import opened Bytes
  import opened SequenceNumbers
  import opened Reassembly
  import opened ReassemblyMemory
  import opened ReassemblyPrefix
  import opened ReassemblyWraparound
  import opened ClientHello

  /** Sum of all payload lengths handed to the object. */
  function TotalLength(calls: seq<Call>): nat {
    if calls == [] then 0
    else
      var last := calls[|calls| - 1];
      TotalLength(calls[..|calls| - 1]) + if last.Arrive? then |last.payload| else 0
  }

  lemma {:induction false} DeliveredAtMostTotal(calls: seq<Call>)
    ensures DeliveredSince(calls) <= TotalLength(calls)
  {
    if calls != [] { DeliveredAtMostTotal(calls[..|calls| - 1]); }
  }

  /** Deliveries that total at most the limit never make the object fail, whatever their sequence numbers. */
  lemma NeverFails(ar: Arithmetic, max: nat, calls: seq<Call>)
    requires TotalLength(calls) <= max
    ensures var s := Run(ar, max, calls);
            !s.failed && Footprint(s) <= TotalLength(calls) && s.memory <= TotalLength(calls)
  {
    DeliveredAtMostTotal(calls);
    LimitKeptWithin(ar, max, calls);
  }

  lemma {:induction false} TotalLengthPrefix(calls: seq<Call>, k: nat)
    requires k <= |calls|
    ensures TotalLength(calls[..k]) <= TotalLength(calls)
  {
    if k == |calls| {
      assert calls[..k] == calls;
    } else {
      TotalLengthPrefix(calls[..|calls| - 1], k);
      assert calls[..|calls| - 1][..k] == calls[..k];
    }
  }

  /** Deliveries only, and the first one carries the first byte of the stream. */
  predicate StartsStream(calls: seq<Call>) {
    && calls != []
    && (forall c <- calls :: c.Arrive?)
    && calls[0].seqNo == 0 && calls[0].payload != []
  }

  lemma {:induction false} BaseIsStart(max: nat, calls: seq<Call>)
    requires StartsStream(calls) && TotalLength(calls) <= max
    ensures Run(Exact, max, calls).initialized && HistoryOf(max, calls).base == 0
  {
    var before := calls[..|calls| - 1];
    NeverFails(Exact, max, calls);
    TotalLengthPrefix(calls, |calls| - 1);
    NeverFails(Exact, max, before);
    var s := Run(Exact, max, before);
    var last := calls[|calls| - 1];
    if before == [] {
      InitializedStays(max, s, last.seqNo, last.payload);
    } else {
      assert before[0] == calls[0];
      BaseIsStart(max, before);
      InitializedStays(max, s, last.seqNo, last.payload);
    }
  }

  lemma {:induction false} MergeKeepsInitialized(max: nat, s: State)
    ensures Merge(Exact, max, s).initialized == s.initialized
    decreases |s.outOfOrder|
  {
    if HeadReached(Exact, s) { MergeKeepsInitialized(max, Absorb(Exact, max, s)); }
  }

  lemma InitializedStays(max: nat, s: State, seqNo: int, payload: bytes)
    requires s.initialized || (payload != [] && !s.failed)
    ensures Deliver(Exact, max, s, seqNo, payload).initialized
  {
    if s.failed || payload == [] { return; }
    var t := Anchored(s, seqNo);
    var overlap := Overlap(Exact, t, seqNo);
    if 0 <= overlap < |payload| {
      var data := Unseen(payload, overlap);
      MergeKeepsInitialized(max, t.(buffer := t.buffer + data, expected := t.expected + |data|,
                                    memory := t.memory + |data|));
    }
  }

  /** A proper prefix of the record is not a complete record, so the scan stays silent. */
  lemma PartialRecordIsSilent(host: bytes, random: bytes, b: bytes)
    requires |host| <= MAX_HOST && |random| == 32
    requires b < Record(host, random)
    ensures Scan(b) == NotFound
  {
    var r := Record(host, random);
    RecordLayout(host, random, []);
    assert r + [] == r;
    assert b == r[..|b|];
  }

  /** Once the record is complete the scan names the host, whatever follows the record. */
  lemma CompleteRecordIsFound(host: bytes, random: bytes, b: bytes)
    requires |host| <= MAX_HOST && |random| == 32
    requires Record(host, random) <= b
    ensures Scan(b) == Found(host)
  {
    var r := Record(host, random);
    assert b == r + b[|r|..];
    ExtractUndoesRecord(host, random, b[|r|..]);
    ScanFollowsExtract(b);
  }

  /** A call that lengthens the buffer does not return early. */
  lemma GrowthReachesScan(max: nat, s: State, seqNo: int, payload: bytes)
    requires !s.failed && !Deliver(Exact, max, s, seqNo, payload).failed
    requires |s.buffer| < |Deliver(Exact, max, s, seqNo, payload).buffer|
    ensures ReachesScan(Exact, max, s, seqNo, payload)
  {
  }

  predicate CarriedBy(calls: seq<Call>, p: int) {
    exists c <- calls :: Covers(c, p)
  }

  /** The segments of these calls together carry every byte of [0, size). */
  predicate Complete(calls: seq<Call>, size: nat) {
    forall p :: 0 <= p < size ==> CarriedBy(calls, p)
  }

  /** While nothing fails, the recorded segments cover what the calls carried. */
  lemma {:induction false} HistoryIsCalls(max: nat, calls: seq<Call>, p: int)
    requires (forall c <- calls :: c.Arrive?) && TotalLength(calls) <= max
    ensures Covered(HistoryOf(max, calls).delivered, p) <==> CarriedBy(calls, p)
  {
    if calls != [] {
      var before := calls[..|calls| - 1];
      var last := calls[|calls| - 1];
      HistoryIsCalls(max, before, p);
      NeverFails(Exact, max, before);
      assert calls == before + [last];
      var d, d' := HistoryOf(max, before).delivered, HistoryOf(max, calls).delivered;
      assert d' == if last.payload == [] then d else d + {last};
      assert CarriedBy(calls, p) <==> CarriedBy(before, p) || Covers(last, p);
      assert Covered(d', p) <==> Covered(d, p) || Covers(last, p);
    }
  }

  /** The buffer has reached size exactly when the calls together carried [0, size). */
  lemma BufferMeasuresCompleteness(stream: bytes, max: nat, calls: seq<Call>, size: nat)
    requires SlicesOf(stream, calls) && StartsStream(calls) && TotalLength(calls) <= max
    ensures var s := Run(Exact, max, calls);
            && !s.failed
            && |s.buffer| <= |stream| && s.buffer == stream[..|s.buffer|]
            && (Complete(calls, size) <==> size <= |s.buffer|)
  {
    NeverFails(Exact, max, calls);
    BaseIsStart(max, calls);
    BufferIsMaximalPrefix(stream, max, calls);
    var s, h := Run(Exact, max, calls), HistoryOf(max, calls);
    assert |s.buffer| == s.expected;
    HistoryIsCalls(max, calls, s.expected);
    if size <= s.expected {
      forall p | 0 <= p < size
        ensures CarriedBy(calls, p)
      {
        HistoryIsCalls(max, calls, p);
      }
    }
  }

  lemma {:induction false} AllNearPrefix(max: nat, calls: seq<Call>, k: nat)
    requires AllNear(max, calls) && k <= |calls|
    ensures AllNear(max, calls[..k])
  {
    if k == |calls| {
      assert calls[..k] == calls;
    } else {
      AllNearPrefix(max, calls[..|calls| - 1], k);
      assert calls[..|calls| - 1][..k] == calls[..k];
    }
  }

  /** A call's answer, by what the buffer holds before and after it. */
  lemma AnswerByBuffer(stream: bytes, host: bytes, random: bytes, max: nat, s: State, seqNo: int, payload: bytes)
    requires |host| <= MAX_HOST && |random| == 32 && Record(host, random) <= stream
    requires !s.failed && !Deliver(Exact, max, s, seqNo, payload).failed
    requires Deliver(Exact, max, s, seqNo, payload).buffer <= stream
    ensures var answer := Answer(Exact, max, s, seqNo, payload);
            var size, reached := |Record(host, random)|, |Deliver(Exact, max, s, seqNo, payload).buffer|;
            && (reached < size ==> answer == NotFound)
            && (size <= reached ==> answer == NotFound || answer == Found(host))
            && (|s.buffer| < size <= reached ==> answer == Found(host))
  {
    var r := Deliver(Exact, max, s, seqNo, payload);
    var record := Record(host, random);
    if |r.buffer| < |record| {
      PrefixesOfOne(r.buffer, record, stream);
      PartialRecordIsSilent(host, random, r.buffer);
    } else {
      PrefixesOfOne(record, r.buffer, stream);
      CompleteRecordIsFound(host, random, r.buffer);
      if |s.buffer| < |record| { GrowthReachesScan(max, s, seqNo, payload); }
    }
    hide Record, Scan, Deliver, ReachesScan;
  }

  lemma PrefixesOfOne(a: bytes, b: bytes, whole: bytes)
    requires a <= whole && b <= whole && |a| <= |b|
    ensures a <= b
  {
    assert a == whole[..|a|] && b == whole[..|b|];
  }

  /** The buffer after the first calls is a prefix of the stream, and as long as what they carried without a gap. */
  lemma PrefixHeld(stream: bytes, max: nat, calls: seq<Call>, k: nat, size: nat)
    requires SlicesOf(stream, calls) && StartsStream(calls) && TotalLength(calls) <= max && k <= |calls| && size > 0
    ensures var s := Run(Exact, max, calls[..k]);
            && !s.failed && s.buffer <= stream
            && (Complete(calls[..k], size) <==> size <= |s.buffer|)
  {
    TotalLengthPrefix(calls, k);
    if k == 0 {
      assert calls[..k] == [];
      assert !CarriedBy([], 0);
    } else {
      BufferMeasuresCompleteness(stream, max, calls[..k], size);
    }
    hide Run, TotalLength, Complete;
  }

  lemma NextCall(max: nat, calls: seq<Call>, k: nat)
    requires k < |calls| && calls[k].Arrive?
    ensures Run(Exact, max, calls[..k + 1])
            == Deliver(Exact, max, Run(Exact, max, calls[..k]), calls[k].seqNo, calls[k].payload)
  {
    assert calls[..k + 1][..k] == calls[..k] && calls[..k + 1][k] == calls[k];
    hide Deliver;
  }

  lemma RecordNonEmpty(host: bytes, random: bytes)
    requires |host| <= MAX_HOST && |random| == 32
    ensures |Record(host, random)| > 0
  {
  }

  /** What the k-th call answers on unbounded offsets. */
  lemma AnswerOnOffsets(stream: bytes, host: bytes, random: bytes, max: nat, calls: seq<Call>, k: nat)
    requires |host| <= MAX_HOST && |random| == 32 && Record(host, random) <= stream
    requires SlicesOf(stream, calls) && StartsStream(calls) && TotalLength(calls) <= max && k < |calls|
    ensures var s := Run(Exact, max, calls[..k]);
            var answer := Answer(Exact, max, s, calls[k].seqNo, calls[k].payload);
            var size := |Record(host, random)|;
            && (!Complete(calls[..k + 1], size) ==> answer == NotFound)
            && (Complete(calls[..k + 1], size) ==> answer == NotFound || answer == Found(host))
            && (Complete(calls[..k + 1], size) && !Complete(calls[..k], size) ==> answer == Found(host))
  {
    assert calls[k].Arrive?;
    hide *;
    var size := |Record(host, random)|;
    RecordNonEmpty(host, random);
    PrefixHeld(stream, max, calls, k, size);
    PrefixHeld(stream, max, calls, k + 1, size);
    NextCall(max, calls, k);
    AnswerByBuffer(stream, host, random, max, Run(Exact, max, calls[..k]), calls[k].seqNo, calls[k].payload);
  }

  /**
   The SNI theorem, for the engine's 32-bit machine and any initial sequence number: if the delivered lengths
   total at most the limit, the object never fails, every call before the record is complete answers nothing,
   the completing call answers exactly the host, and no later call answers anything else.
   */
  lemma SniIsDelivered(stream: bytes, host: bytes, random: bytes, isn: int, max: nat, calls: seq<Call>, k: nat)
    requires |host| <= MAX_HOST && |random| == 32 && Record(host, random) <= stream
    requires SlicesOf(stream, calls) && StartsStream(calls) && TotalLength(calls) <= max < TWO_31
    requires AllNear(max, calls) && k < |calls|
    ensures var s := Run(Wrapping, max, WireCalls(isn, calls[..k]));
            var answer := Answer(Wrapping, max, s, Wire(isn, calls[k].seqNo), calls[k].payload);
            var size := |Record(host, random)|;
            && !s.failed
            && (!Complete(calls[..k + 1], size) ==> answer == NotFound)
            && (Complete(calls[..k + 1], size) ==> answer == NotFound || answer == Found(host))
            && (Complete(calls[..k + 1], size) && !Complete(calls[..k], size) ==> answer == Found(host))
  {
    var before := calls[..k];
    AllNearPrefix(max, calls, k);
    AllNearPrefix(max, calls, k + 1);
    assert calls[..k + 1][..k] == before && calls[..k + 1][k] == calls[k];
    WraparoundIsInvisible(stream, isn, max, before);
    RunSettled(stream, max, before);
    TotalLengthPrefix(calls, k);
    NeverFails(Exact, max, before);
    CounterIsExact(Exact, max, before);
    DeliverAgrees(isn, max, Run(Exact, max, before), calls[k].seqNo, calls[k].payload);
    AnswerOnOffsets(stream, host, random, max, calls, k);
  }
}
