/**
 The engine's 32-bit machine refines the unbounded one: as long as every arriving segment lies within 2^31 of
 the expected position, wrapping sequence numbers and unbounded offsets drive the object identically.
 */
module ReassemblyWraparound {
  import opened Bytes
  import opened SequenceNumbers
  import opened Reassembly
  import opened ReassemblyMemory
  import opened ReassemblyPrefix
  import opened ClientHello

  /** The sequence number on the wire of a stream offset. */
  function Wire(isn: int, off: int): int {
    Wrap32(isn + off)
  }

  function WireSegments(isn: int, segments: seq<Segment>): (w: seq<Segment>)
    ensures |w| == |segments|
  {
    seq(|segments|, i requires 0 <= i < |segments| => Segment(Wire(isn, segments[i].seqNo), segments[i].data))
  }

  /** The 32-bit state that stands for a state on offsets. */
  function WireState(isn: int, s: State): State {
    s.(expected := if s.initialized then Wire(isn, s.expected) else s.expected,
       outOfOrder := WireSegments(isn, s.outOfOrder))
  }

  function WireCall(isn: int, c: Call): Call {
    if c.Arrive? then Arrive(Wire(isn, c.seqNo), c.payload) else c
  }

  function WireCalls(isn: int, calls: seq<Call>): (w: seq<Call>)
    ensures |w| == |calls|
  {
    seq(|calls|, i requires 0 <= i < |calls| => WireCall(isn, calls[i]))
  }

  /** The segment starts within half the sequence space of the expected position. */
  predicate Near(s: State, c: Call) {
    c.Arrive? && s.initialized && !s.failed ==> -TWO_31 < c.seqNo - s.expected < TWO_31
  }

  predicate AllNear(max: nat, calls: seq<Call>) {
    calls == [] ||
    var before := calls[..|calls| - 1];
    AllNear(max, before) && Near(Run(Exact, max, before), calls[|calls| - 1])
  }

  /** Stored segments lie strictly between low and low + 2^31. */
  predicate Ahead(segments: seq<Segment>, low: int) {
    forall i :: 0 <= i < |segments| ==> low < segments[i].seqNo < low + TWO_31
  }

  lemma {:induction false} LowerBoundAgrees(isn: int, segments: seq<Segment>, off: int)
    requires forall i :: 0 <= i < |segments| ==> -TWO_31 <= segments[i].seqNo - off < TWO_31
    ensures LowerBound(Wrapping, WireSegments(isn, segments), Wire(isn, off)) == LowerBound(Exact, segments, off)
  {
    if segments != [] {
      SeqDiffIsTrueDistance(isn, segments[0].seqNo, off);
      LowerBoundAgrees(isn, segments[1..], off);
      assert WireSegments(isn, segments)[1..] == WireSegments(isn, segments[1..]);
    }
  }

  lemma AbsorbAgrees(isn: int, max: nat, s: State)
    requires s.initialized && s.outOfOrder != []
    requires -TWO_31 <= s.outOfOrder[0].seqNo - s.expected < TWO_31
    ensures HeadReached(Wrapping, WireState(isn, s)) == HeadReached(Exact, s)
    ensures HeadReached(Exact, s) ==> Absorb(Wrapping, max, WireState(isn, s)) == WireState(isn, Absorb(Exact, max, s))
  {
    var head := s.outOfOrder[0];
    SeqDiffIsTrueDistance(isn, head.seqNo, s.expected);
    if HeadReached(Exact, s) {
      var overlap := s.expected - head.seqNo;
      WrapAdvance(isn, s.expected, |head.data| - overlap);
      assert WireSegments(isn, s.outOfOrder)[1..] == WireSegments(isn, s.outOfOrder[1..]);
      assert WireSegments(isn, []) == [];
    }
  }

  /** start is the expected position before the call that triggered the merge. */
  lemma {:induction false} MergeAgrees(isn: int, max: nat, s: State, start: int)
    requires max < TWO_31 && s.initialized && !s.failed
    requires Ahead(s.outOfOrder, start)
    requires start <= s.expected <= start + max && s.expected - start <= |s.buffer|
    ensures Merge(Wrapping, max, WireState(isn, s)) == WireState(isn, Merge(Exact, max, s))
    ensures var r := Merge(Exact, max, s);
            r.initialized && (!r.failed ==> start <= r.expected && Ahead(r.outOfOrder, start))
    decreases |s.outOfOrder|
  {
    if s.outOfOrder != [] {
      AbsorbAgrees(isn, max, s);
      if HeadReached(Exact, s) {
        var t := Absorb(Exact, max, s);
        if t.failed {
          assert Merge(Exact, max, t) == t;
          assert Merge(Wrapping, max, WireState(isn, t)) == WireState(isn, t);
        } else {
          MergeAgrees(isn, max, t, start);
        }
      }
    }
  }

  lemma WireInsert(isn: int, a: seq<Segment>, i: nat, seg: Segment)
    requires i <= |a|
    ensures WireSegments(isn, a[..i] + [seg] + a[i..])
         == WireSegments(isn, a)[..i] + [Segment(Wire(isn, seg.seqNo), seg.data)] + WireSegments(isn, a)[i..]
  {
  }

  /** Both machines agree on whether the segment found has the arriving one's start. */
  lemma SameStart(isn: int, segments: seq<Segment>, i: nat, off: int)
    requires i < |segments| && -TWO_31 <= segments[i].seqNo - off < TWO_31
    ensures WireSegments(isn, segments)[i].seqNo == Wire(isn, off) <==> segments[i].seqNo == off
  {
    WrapInjective(isn, segments[i].seqNo, off);
  }

  /** The position found, and what is stored there, are the same to both machines. */
  lemma PlaceAgrees(isn: int, segments: seq<Segment>, off: int)
    requires forall i :: 0 <= i < |segments| ==> -TWO_31 <= segments[i].seqNo - off < TWO_31
    ensures var i := LowerBound(Exact, segments, off);
            var w := WireSegments(isn, segments);
            && LowerBound(Wrapping, w, Wire(isn, off)) == i <= |segments|
            && (i < |segments|
               ==> w[i].data == segments[i].data && (w[i].seqNo == Wire(isn, off) <==> segments[i].seqNo == off))
  {
    LowerBoundAgrees(isn, segments, off);
    var i := LowerBound(Exact, segments, off);
    if i < |segments| { SameStart(isn, segments, i, off); }
    hide LowerBound, Wire;
  }

  lemma WireReplace(isn: int, a: seq<Segment>, i: nat, seg: Segment)
    requires i < |a|
    ensures WireSegments(isn, a[i := seg]) == WireSegments(isn, a)[i := Segment(Wire(isn, seg.seqNo), seg.data)]
  {
  }

  lemma StoreAgrees(isn: int, s: State, seg: Segment)
    requires s.initialized && Ahead(s.outOfOrder, s.expected)
    requires s.expected < seg.seqNo < s.expected + TWO_31
    ensures var w := Segment(Wire(isn, seg.seqNo), seg.data);
            && Store(Wrapping, WireState(isn, s), w) == WireState(isn, Store(Exact, s, seg))
            && AlreadyStored(Wrapping, WireState(isn, s), w) == AlreadyStored(Exact, s, seg)
  {
    PlaceAgrees(isn, s.outOfOrder, seg.seqNo);
    var i := LowerBound(Exact, s.outOfOrder, seg.seqNo);
    hide LowerBound, Wire, Ahead, WireSegments;
    if i < |s.outOfOrder| && s.outOfOrder[i].seqNo == seg.seqNo {
      WireReplace(isn, s.outOfOrder, i, seg);
    } else {
      WireInsert(isn, s.outOfOrder, i, seg);
    }
  }

  lemma StoreAhead(s: State, seg: Segment, low: int)
    requires Ahead(s.outOfOrder, low) && low < seg.seqNo < low + TWO_31
    ensures Ahead(Store(Exact, s, seg).outOfOrder, low)
  {
    var i := LowerBound(Exact, s.outOfOrder, seg.seqNo);
    var r := s.outOfOrder[..i] + [seg] + s.outOfOrder[i..];
    forall k | 0 <= k < |r|
      ensures low < r[k].seqNo < low + TWO_31
    {
      assert r[k] == if k < i then s.outOfOrder[k] else if k == i then seg else s.outOfOrder[k - 1];
    }
  }

  lemma AppendAgrees(isn: int, max: nat, s: State, data: bytes)
    requires max < TWO_31 && s.initialized && !s.failed && |data| <= max
    requires Ahead(s.outOfOrder, s.expected)
    ensures Append(Wrapping, max, WireState(isn, s), data) == WireState(isn, Append(Exact, max, s, data))
    ensures var r := Append(Exact, max, s, data);
            r.initialized && (!r.failed ==> s.expected <= r.expected && Ahead(r.outOfOrder, s.expected))
  {
    WrapAdvance(isn, s.expected, |data|);
    hide Merge, Ahead;
    MergeAgrees(isn, max, s.(buffer := s.buffer + data, expected := s.expected + |data|,
                             memory := s.memory + |data|), s.expected);
  }

  /** Between calls everything stored is ahead of the expected position, inside the half range. */
  predicate Settled(s: State) {
    if s.initialized then Ahead(s.outOfOrder, s.expected) else s.outOfOrder == []
  }

  lemma AnchoredAgrees(isn: int, s: State, off: int)
    requires Settled(s)
    ensures Anchored(WireState(isn, s), Wire(isn, off)) == WireState(isn, Anchored(s, off))
    ensures Settled(Anchored(s, off))
  {
    assert WireSegments(isn, []) == [];
  }

  /** One call, from a state between calls: same state, same decision to scan, same answer. */
  lemma DeliverAgrees(isn: int, max: nat, s: State, off: int, payload: bytes)
    requires max < TWO_31 && s.memory >= 0 && Settled(s)
    requires Near(s, Arrive(off, payload))
    ensures Deliver(Wrapping, max, WireState(isn, s), Wire(isn, off), payload)
         == WireState(isn, Deliver(Exact, max, s, off, payload))
    ensures Answer(Wrapping, max, WireState(isn, s), Wire(isn, off), payload) == Answer(Exact, max, s, off, payload)
  {
    if s.failed || payload == [] { return; }
    var t := Anchored(s, off);
    AnchoredAgrees(isn, s, off);
    SeqDiffIsTrueDistance(isn, off, t.expected);
    var overlap := t.expected - off;
    assert Overlap(Wrapping, WireState(isn, t), Wire(isn, off)) == overlap;
    if overlap >= |payload| {
    } else if t.memory + |Unseen(payload, overlap)| > max {
      assert WireSegments(isn, []) == [];
    } else if overlap >= 0 {
      AppendAgrees(isn, max, t, Unseen(payload, overlap));
    } else {
      StoreAgrees(isn, t, Segment(off, payload));
    }
  }

  lemma DeliverAhead(max: nat, s: State, off: int, payload: bytes)
    requires max < TWO_31 && s.memory >= 0 && Settled(s) && !s.failed && payload != []
    requires Near(s, Arrive(off, payload))
    ensures var t, r := Anchored(s, off), Deliver(Exact, max, s, off, payload);
            !r.failed ==> t.expected <= r.expected && Ahead(r.outOfOrder, t.expected)
  {
    var t := Anchored(s, off);
    var overlap := t.expected - off;
    if overlap >= |payload| || t.memory + |Unseen(payload, overlap)| > max {
    } else if overlap >= 0 {
      AppendAgrees(0, max, t, Unseen(payload, overlap));
    } else {
      StoreAhead(t, Segment(off, payload), t.expected);
    }
  }

  lemma {:induction false} RunSettled(stream: bytes, max: nat, calls: seq<Call>)
    requires SlicesOf(stream, calls) && AllNear(max, calls) && max < TWO_31
    ensures Settled(Run(Exact, max, calls))
  {
    RunRefines(stream, max, calls);
    CounterIsExact(Exact, max, calls);
    if calls != [] {
      var before := calls[..|calls| - 1];
      RunSettled(stream, max, before);
      RunRefines(stream, max, before);
      CounterIsExact(Exact, max, before);
      var s := Run(Exact, max, before);
      match calls[|calls| - 1]
      case Clear =>
      case Arrive(off, payload) =>
        if !s.failed && payload != [] { DeliverAhead(max, s, off, payload); }
    }
  }

  /**
   Whole runs agree: the engine's 32-bit object is, after every list of near segments of one stream with any
   initial sequence number, the wire image of the object on unbounded offsets.
   */
  lemma {:induction false} WraparoundIsInvisible(stream: bytes, isn: int, max: nat, calls: seq<Call>)
    requires SlicesOf(stream, calls) && AllNear(max, calls) && max < TWO_31
    ensures Run(Wrapping, max, WireCalls(isn, calls)) == WireState(isn, Run(Exact, max, calls))
  {
    if calls == [] {
      assert WireSegments(isn, []) == [];
    } else {
      var before := calls[..|calls| - 1];
      WraparoundIsInvisible(stream, isn, max, before);
      assert WireCalls(isn, calls)[..|calls| - 1] == WireCalls(isn, before);
      RunSettled(stream, max, before);
      CounterIsExact(Exact, max, before);
      match calls[|calls| - 1]
      case Clear => assert WireSegments(isn, []) == [];
      case Arrive(off, payload) => DeliverAgrees(isn, max, Run(Exact, max, before), off, payload);
    }
  }

  /** On a stream shorter than 2^31 bytes every segment is near, so nothing need be assumed about arrivals. */
  lemma {:induction false} ShortStreamsAreNear(stream: bytes, max: nat, calls: seq<Call>)
    requires SlicesOf(stream, calls) && |stream| < TWO_31
    ensures AllNear(max, calls)
  {
    if calls != [] {
      var before := calls[..|calls| - 1];
      ShortStreamsAreNear(stream, max, before);
      RunRefines(stream, max, before);
      assert SliceOf(stream, calls[|calls| - 1]);
    }
  }

  /** The reassembly theorem for the engine's own arithmetic. */
  lemma WrappedBufferIsMaximalPrefix(stream: bytes, isn: int, max: nat, calls: seq<Call>)
    requires SlicesOf(stream, calls) && AllNear(max, calls) && max < TWO_31
    requires var s := Run(Wrapping, max, WireCalls(isn, calls)); s.initialized && !s.failed
    ensures var s, h := Run(Wrapping, max, WireCalls(isn, calls)), HistoryOf(max, calls);
            var first := h.base + |s.buffer|;
            && 0 <= h.base && first <= |stream|
            && s.buffer == stream[h.base..first]
            && s.expected == Wire(isn, first)
            && AllCovered(h.delivered, h.base, first)
            && !Covered(h.delivered, first)
            && SortedBeyond(s.outOfOrder, s.expected)
  {
    hide Run, HistoryOf, AllNear, AllCovered, Covered;
    WraparoundIsInvisible(stream, isn, max, calls);
    BufferIsMaximalPrefix(stream, max, calls);
    RunSettled(stream, max, calls);
    var s := Run(Exact, max, calls);
    WireSortedBeyond(isn, s.outOfOrder, s.expected);
  }

  /** Strictly sorted, and beyond the expected number, as 32-bit comparison sees it. */
  predicate SortedBeyond(segments: seq<Segment>, expected: int) {
    && (forall i, j :: 0 <= i < j < |segments| ==> SeqDiff(segments[i].seqNo, segments[j].seqNo) < 0)
    && (forall i :: 0 <= i < |segments| ==> SeqDiff(segments[i].seqNo, expected) > 0)
  }

  lemma WireSortedBeyond(isn: int, segments: seq<Segment>, expected: int)
    requires Sorted(segments) && Ahead(segments, expected)
    ensures SortedBeyond(WireSegments(isn, segments), Wire(isn, expected))
  {
    var w := WireSegments(isn, segments);
    forall i | 0 <= i < |w|
      ensures SeqDiff(w[i].seqNo, Wire(isn, expected)) > 0
    {
      SeqDiffIsTrueDistance(isn, segments[i].seqNo, expected);
    }
    forall i, j | 0 <= i < j < |w|
      ensures SeqDiff(w[i].seqNo, w[j].seqNo) < 0
    {
      SeqDiffIsTrueDistance(isn, segments[i].seqNo, segments[j].seqNo);
    }
  }

  /**
   Arrival order, cutting and duplication do not matter to the 32-bit object either: two live runs of one stream
   with the same base that delivered the same bytes hold the same buffer and expect the same sequence number.
   */
  lemma WrappedArrivalOrderIrrelevant(stream: bytes, isn: int, max1: nat, calls1: seq<Call>, max2: nat,
                                      calls2: seq<Call>)
    requires SlicesOf(stream, calls1) && AllNear(max1, calls1) && max1 < TWO_31
    requires SlicesOf(stream, calls2) && AllNear(max2, calls2) && max2 < TWO_31
    requires var s := Run(Wrapping, max1, WireCalls(isn, calls1)); s.initialized && !s.failed
    requires var s := Run(Wrapping, max2, WireCalls(isn, calls2)); s.initialized && !s.failed
    requires HistoryOf(max1, calls1).base == HistoryOf(max2, calls2).base
    requires forall p ::
               Covered(HistoryOf(max1, calls1).delivered, p) <==> Covered(HistoryOf(max2, calls2).delivered, p)
    ensures var s1, s2 := Run(Wrapping, max1, WireCalls(isn, calls1)), Run(Wrapping, max2, WireCalls(isn, calls2));
            s1.buffer == s2.buffer && s1.expected == s2.expected
  {
    hide Run, HistoryOf, AllNear, Covered;
    WraparoundIsInvisible(stream, isn, max1, calls1);
    WraparoundIsInvisible(stream, isn, max2, calls2);
    ArrivalOrderIrrelevant(stream, max1, calls1, max2, calls2);
  }
}
