/**
 What the reassembler computes. On unbounded stream offsets, and for any list of calls whose segments are
 slices of one byte stream, the buffer is the stream from the base to the first undelivered byte.
 */
module ReassemblyPrefix {
  import opened Bytes
  import opened Reassembly
  import opened ReassemblyMemory

  /** The segment is a slice of the stream; its sequence number is its offset. */
  predicate SliceOf(stream: bytes, c: Call) {
    c.Arrive? ==>
      && 0 <= c.seqNo
      && c.seqNo + |c.payload| <= |stream|
      && c.payload == stream[c.seqNo..c.seqNo + |c.payload|]
  }

  predicate SlicesOf(stream: bytes, calls: seq<Call>) {
    forall c <- calls :: SliceOf(stream, c)
  }

  /** First offset wanted and non-empty segments delivered, both since the last clear. */
  datatype History = History(base: int, delivered: set<Call>)

  function Recorded(s: State, h: History, c: Call): History {
    match c
    case Clear => History(s.expected, {})
    case Arrive(seqNo, payload) =>
      if payload == [] || s.failed then h
      else History(if s.initialized then h.base else seqNo, h.delivered + {c})
  }

  function HistoryOf(max: nat, calls: seq<Call>): History {
    if calls == [] then History(0, {})
    else
      var before := calls[..|calls| - 1];
      Recorded(Run(Exact, max, before), HistoryOf(max, before), calls[|calls| - 1])
  }

  predicate Covers(c: Call, p: int) {
    c.Arrive? && c.seqNo <= p < c.seqNo + |c.payload|
  }

  /** Some delivered segment carried the byte at offset p. */
  predicate Covered(delivered: set<Call>, p: int) {
    exists c <- delivered :: Covers(c, p)
  }

  predicate Sorted(segments: seq<Segment>) {
    forall i, j :: 0 <= i < j < |segments| ==> segments[i].seqNo < segments[j].seqNo
  }

  predicate Beyond(segments: seq<Segment>, e: int) {
    forall i :: 0 <= i < |segments| ==> e < segments[i].seqNo
  }

  /** A delivered segment that waits in the out-of-order list, itself or inside a longer one. */
  predicate Waits(segments: seq<Segment>, c: Call) {
    c.Arrive? && exists i :: 0 <= i < |segments| && segments[i].seqNo == c.seqNo && |c.payload| <= |segments[i].data|
  }

  /** Every stored segment is one of the delivered slices. */
  predicate Delivered(stream: bytes, delivered: set<Call>, segments: seq<Segment>) {
    forall i :: 0 <= i < |segments| ==>
      var c := Arrive(segments[i].seqNo, segments[i].data);
      SliceOf(stream, c) && c in delivered
  }

  predicate AllCovered(delivered: set<Call>, from: int, to: int) {
    forall p :: from <= p < to ==> Covered(delivered, p)
  }

  predicate NothingLost(delivered: set<Call>, s: State) {
    forall c <- delivered :: c.Arrive? && (c.seqNo + |c.payload| <= s.expected || Waits(s.outOfOrder, c))
  }

  /** The refinement invariant, up to stored segments that the buffer has just reached. */
  ghost predicate Consistent(stream: bytes, h: History, s: State) {
    && 0 <= h.base <= s.expected <= |stream|
    && s.buffer == stream[h.base..s.expected]
    && Sorted(s.outOfOrder)
    && Delivered(stream, h.delivered, s.outOfOrder)
    && AllCovered(h.delivered, h.base, s.expected)
    && NothingLost(h.delivered, s)
  }

  /** The invariant between calls. */
  ghost predicate Refines(stream: bytes, h: History, s: State) {
    && (!s.initialized ==> s.(expected := 0) == Initial && h.delivered == {})
    && (s.initialized ==> 0 <= s.expected <= |stream|)
    && (s.failed ==> s.initialized)
    && (s.initialized && !s.failed ==> Consistent(stream, h, s) && Beyond(s.outOfOrder, s.expected))
  }

  /** Appending bytes that one delivered segment carried keeps what concerns the buffer. */
  lemma ExtendBuffer(stream: bytes, h: History, s: State, c: Call, data: bytes)
    requires 0 <= h.base <= s.expected <= |stream| && s.buffer == stream[h.base..s.expected]
    requires AllCovered(h.delivered, h.base, s.expected)
    requires c in h.delivered && c.Arrive? && SliceOf(stream, c)
    requires c.seqNo <= s.expected <= c.seqNo + |c.payload| && data == c.payload[s.expected - c.seqNo..]
    ensures s.expected + |data| == c.seqNo + |c.payload|
    ensures s.buffer + data == stream[h.base..s.expected + |data|]
    ensures AllCovered(h.delivered, h.base, s.expected + |data|)
  {
    assert data == stream[s.expected..s.expected + |data|];
    forall p | s.expected <= p < s.expected + |data|
      ensures Covered(h.delivered, p)
    {
      assert Covers(c, p);
    }
  }

  lemma AbsorbLosesNothing(max: nat, h: History, s: State)
    requires HeadReached(Exact, s) && !s.failed && NothingLost(h.delivered, s)
    requires !Absorb(Exact, max, s).failed
    ensures NothingLost(h.delivered, Absorb(Exact, max, s))
  {
    var r := Absorb(Exact, max, s);
    forall c | c in h.delivered && c.seqNo + |c.payload| > r.expected
      ensures Waits(r.outOfOrder, c)
    {
      var i :| 0 <= i < |s.outOfOrder| && s.outOfOrder[i].seqNo == c.seqNo && |c.payload| <= |s.outOfOrder[i].data|;
      assert r.outOfOrder[i - 1] == s.outOfOrder[i];
    }
  }

  /** Without its first segment the list stays sorted and delivered; the first segment is a delivered slice. */
  lemma TailSorted(stream: bytes, h: History, segments: seq<Segment>)
    requires segments != [] && Sorted(segments) && Delivered(stream, h.delivered, segments)
    ensures Sorted(segments[1..]) && Delivered(stream, h.delivered, segments[1..])
    ensures var c := Arrive(segments[0].seqNo, segments[0].data); SliceOf(stream, c) && c in h.delivered
  {
    hide SliceOf;
  }

  lemma AbsorbConsistent(stream: bytes, max: nat, h: History, s: State)
    requires Consistent(stream, h, s) && HeadReached(Exact, s) && !s.failed
    requires !Absorb(Exact, max, s).failed
    ensures Consistent(stream, h, Absorb(Exact, max, s))
  {
    var head := s.outOfOrder[0];
    var c := Arrive(head.seqNo, head.data);
    AbsorbLosesNothing(max, h, s);
    TailSorted(stream, h, s.outOfOrder);
    hide AllCovered, NothingLost, Sorted, Delivered, SliceOf;
    if s.expected - head.seqNo < |head.data| {
      ExtendBuffer(stream, h, s, c, head.data[s.expected - head.seqNo..]);
    }
  }

  lemma {:induction false} MergeConsistent(stream: bytes, max: nat, h: History, s: State)
    requires Consistent(stream, h, s) && !s.failed
    ensures var r := Merge(Exact, max, s);
            && r.initialized == s.initialized
            && s.expected <= r.expected <= |stream|
            && (!r.failed ==> Consistent(stream, h, r) && Beyond(r.outOfOrder, r.expected))
    decreases |s.outOfOrder|
  {
    if HeadReached(Exact, s) {
      var t := Absorb(Exact, max, s);
      if t.failed {
        assert Merge(Exact, max, t) == t;
      } else {
        AbsorbConsistent(stream, max, h, s);
        MergeConsistent(stream, max, h, t);
      }
    }
  }

  /** Recording one more delivered segment keeps what the others established. */
  lemma MoreDelivered(stream: bytes, h: History, s: State, c: Call)
    requires AllCovered(h.delivered, h.base, s.expected) && Delivered(stream, h.delivered, s.outOfOrder)
    ensures AllCovered(h.delivered + {c}, h.base, s.expected) && Delivered(stream, h.delivered + {c}, s.outOfOrder)
  {
    forall p | h.base <= p < s.expected
      ensures Covered(h.delivered + {c}, p)
    {
      assert Covered(h.delivered, p);
      var d :| d in h.delivered && Covers(d, p);
      assert d in h.delivered + {c};
    }
  }

  lemma AppendConsistent(stream: bytes, h: History, s: State, c: Call, t: State)
    requires Consistent(stream, h, s)
    requires c.Arrive? && SliceOf(stream, c) && c.seqNo <= s.expected < c.seqNo + |c.payload|
    requires t.outOfOrder == s.outOfOrder && t.expected == c.seqNo + |c.payload|
    requires t.buffer == s.buffer + c.payload[s.expected - c.seqNo..]
    ensures Consistent(stream, History(h.base, h.delivered + {c}), t)
  {
    MoreDelivered(stream, h, s, c);
    ExtendBuffer(stream, History(h.base, h.delivered + {c}), s, c, c.payload[s.expected - c.seqNo..]);
  }

  lemma AppendRefines(stream: bytes, max: nat, h: History, s: State, c: Call)
    requires Consistent(stream, h, s) && !s.failed && s.initialized
    requires c.Arrive? && SliceOf(stream, c) && c.seqNo <= s.expected < c.seqNo + |c.payload|
    ensures Refines(stream, History(h.base, h.delivered + {c}),
                    Append(Exact, max, s, Unseen(c.payload, s.expected - c.seqNo)))
  {
    var data := Unseen(c.payload, s.expected - c.seqNo);
    assert data == c.payload[s.expected - c.seqNo..];
    var t := s.(buffer := s.buffer + data, expected := s.expected + |data|, memory := s.memory + |data|);
    AppendConsistent(stream, h, s, c, t);
    MergeConsistent(stream, max, History(h.base, h.delivered + {c}), t);
    assert Append(Exact, max, s, data) == Merge(Exact, max, t);
    hide Consistent, Append, Merge, Unseen, SliceOf, Beyond;
  }

  /** Between smaller and larger neighbours a segment keeps the list sorted. */
  lemma InsertSorted(a: seq<Segment>, i: nat, seg: Segment, e: int)
    requires i <= |a| && Sorted(a) && Beyond(a, e) && e < seg.seqNo
    requires i > 0 ==> a[i - 1].seqNo < seg.seqNo
    requires i < |a| ==> seg.seqNo < a[i].seqNo
    ensures Sorted(a[..i] + [seg] + a[i..]) && Beyond(a[..i] + [seg] + a[i..], e)
  {
    var r := a[..i] + [seg] + a[i..];
    forall j, k | 0 <= j < k < |r|
      ensures r[j].seqNo < r[k].seqNo
    {
      var x := if j < i then a[j] else if j == i then seg else a[j - 1];
      var y := if k < i then a[k] else if k == i then seg else a[k - 1];
      assert r[j] == x && r[k] == y;
    }
  }

  lemma StoreSorted(s: State, seg: Segment)
    requires Sorted(s.outOfOrder) && Beyond(s.outOfOrder, s.expected) && s.expected < seg.seqNo
    ensures Sorted(Store(Exact, s, seg).outOfOrder) && Beyond(Store(Exact, s, seg).outOfOrder, s.expected)
  {
    var i := LowerBound(Exact, s.outOfOrder, seg.seqNo);
    if i == |s.outOfOrder| || s.outOfOrder[i].seqNo != seg.seqNo {
      InsertSorted(s.outOfOrder, i, seg, s.expected);
    }
  }

  lemma StoreDelivered(stream: bytes, delivered: set<Call>, s: State, c: Call)
    requires Delivered(stream, delivered, s.outOfOrder)
    requires c.Arrive? && SliceOf(stream, c) && c in delivered
    ensures Delivered(stream, delivered, Store(Exact, s, Segment(c.seqNo, c.payload)).outOfOrder)
  {
    var seg := Segment(c.seqNo, c.payload);
    var r := Store(Exact, s, seg).outOfOrder;
    assert forall k :: 0 <= k < |r| ==> r[k] == seg || r[k] in s.outOfOrder;
  }

  lemma StoreLosesNothing(delivered: set<Call>, s: State, c: Call)
    requires NothingLost(delivered, s) && c.Arrive?
    ensures NothingLost(delivered + {c}, Store(Exact, s, Segment(c.seqNo, c.payload)))
  {
    var seg := Segment(c.seqNo, c.payload);
    var r := Store(Exact, s, seg);
    var i := LowerBound(Exact, s.outOfOrder, c.seqNo);
    var replacing := i < |s.outOfOrder| && s.outOfOrder[i].seqNo == c.seqNo;
    forall d | d in delivered + {c} && d.seqNo + |d.payload| > s.expected
      ensures Waits(r.outOfOrder, d)
    {
      if d in delivered {
        var k :| 0 <= k < |s.outOfOrder| && s.outOfOrder[k].seqNo == d.seqNo && |d.payload| <= |s.outOfOrder[k].data|;
        var k' := if k < i || replacing then k else k + 1;
        assert r.outOfOrder[k'].seqNo == d.seqNo && |d.payload| <= |r.outOfOrder[k'].data|;
      } else {
        assert r.outOfOrder[i].seqNo == c.seqNo && |c.payload| <= |r.outOfOrder[i].data|;
      }
    }
  }

  lemma StoreRefines(stream: bytes, h: History, s: State, c: Call)
    requires Consistent(stream, h, s) && Beyond(s.outOfOrder, s.expected) && !s.failed && s.initialized
    requires c.Arrive? && SliceOf(stream, c) && s.expected < c.seqNo
    ensures Refines(stream, History(h.base, h.delivered + {c}), Store(Exact, s, Segment(c.seqNo, c.payload)))
  {
    hide LowerBound, Covered, AllCovered, Sorted, Delivered, NothingLost, Covers;
    MoreDelivered(stream, h, s, c);
    StoreSorted(s, Segment(c.seqNo, c.payload));
    StoreDelivered(stream, h.delivered + {c}, s, c);
    StoreLosesNothing(h.delivered, s, c);
  }

  lemma StepRefines(stream: bytes, max: nat, h: History, s: State, c: Call)
    requires Refines(stream, h, s) && SliceOf(stream, c)
    ensures Refines(stream, Recorded(s, h, c), Step(Exact, max, s, c))
  {
    if c.Clear? || c.payload == [] || s.failed { return; }
    var t := Anchored(s, c.seqNo);
    var h0 := History(if s.initialized then h.base else c.seqNo, h.delivered);
    assert Consistent(stream, h0, t) && Beyond(t.outOfOrder, t.expected);
    var overlap := t.expected - c.seqNo;
    if overlap >= |c.payload| {
      assert forall p :: h0.base <= p < t.expected && Covered(h.delivered, p) ==> Covered(h.delivered + {c}, p);
    } else if t.memory + |Unseen(c.payload, overlap)| > max {
    } else if overlap >= 0 {
      AppendRefines(stream, max, h0, t, c);
    } else {
      StoreRefines(stream, h0, t, c);
    }
  }

  lemma {:induction false} RunRefines(stream: bytes, max: nat, calls: seq<Call>)
    requires SlicesOf(stream, calls)
    ensures Refines(stream, HistoryOf(max, calls), Run(Exact, max, calls))
  {
    if calls != [] {
      var before := calls[..|calls| - 1];
      RunRefines(stream, max, before);
      StepRefines(stream, max, HistoryOf(max, before), Run(Exact, max, before), calls[|calls| - 1]);
    }
  }

  /**
   The reassembly theorem: after any calls carrying slices of one stream, in any order, overlapping or
   repeated, a live object holds exactly the stream from the base to the first undelivered byte, and
   stores the rest strictly sorted beyond that byte.
   */
  lemma BufferIsMaximalPrefix(stream: bytes, max: nat, calls: seq<Call>)
    requires SlicesOf(stream, calls)
    requires !Run(Exact, max, calls).failed && Run(Exact, max, calls).initialized
    ensures var s, h := Run(Exact, max, calls), HistoryOf(max, calls);
            && 0 <= h.base <= s.expected <= |stream|
            && s.buffer == stream[h.base..s.expected]
            && AllCovered(h.delivered, h.base, s.expected)
            && !Covered(h.delivered, s.expected)
            && Sorted(s.outOfOrder) && Beyond(s.outOfOrder, s.expected)
  {
    RunRefines(stream, max, calls);
  }

  /**
   Arrival order, cutting and duplication do not matter: two live runs with the same base that delivered
   the same bytes hold the same buffer and expect the same sequence number.
   */
  lemma ArrivalOrderIrrelevant(stream: bytes, max1: nat, calls1: seq<Call>, max2: nat, calls2: seq<Call>)
    requires SlicesOf(stream, calls1) && SlicesOf(stream, calls2)
    requires !Run(Exact, max1, calls1).failed && Run(Exact, max1, calls1).initialized
    requires !Run(Exact, max2, calls2).failed && Run(Exact, max2, calls2).initialized
    requires HistoryOf(max1, calls1).base == HistoryOf(max2, calls2).base
    requires forall p ::
               Covered(HistoryOf(max1, calls1).delivered, p) <==> Covered(HistoryOf(max2, calls2).delivered, p)
    ensures Run(Exact, max1, calls1).buffer == Run(Exact, max2, calls2).buffer
    ensures Run(Exact, max1, calls1).expected == Run(Exact, max2, calls2).expected
  {
    BufferIsMaximalPrefix(stream, max1, calls1);
    BufferIsMaximalPrefix(stream, max2, calls2);
  }
}
