/** When the reassembler answers, and how its position moves: for every arithmetic, limit and call. */
module ReassemblyAnswers {
  import opened Bytes
  import opened SequenceNumbers
  import opened Reassembly
  import opened ReassemblyMemory
  import opened ClientHello

  lemma StoreIsNews(ar: Arithmetic, s: State, seg: Segment)
    ensures Store(ar, s, seg).outOfOrder == s.outOfOrder <==> AlreadyStored(ar, s, seg)
    ensures Store(ar, s, seg).buffer == s.buffer && Store(ar, s, seg).expected == s.expected
  {
    var i := LowerBound(ar, s.outOfOrder, seg.seqNo);
    if i < |s.outOfOrder| && s.outOfOrder[i].seqNo == seg.seqNo && !AlreadyStored(ar, s, seg) {
      assert s.outOfOrder[i := seg][i] != s.outOfOrder[i];
    }
  }

  lemma {:induction false} MergeMoves(ar: Arithmetic, max: nat, s: State)
    requires !s.failed
    ensures var r := Merge(ar, max, s);
            && (r.failed ==> r.buffer == [])
            && (!r.failed ==> |r.buffer| >= |s.buffer|)
            && (r.initialized <==> s.initialized)
            && (ar == Exact ==> r.expected >= s.expected)
            && (ar == Exact && !r.failed ==> r.expected - s.expected == |r.buffer| - |s.buffer|)
    decreases |s.outOfOrder|
  {
    if HeadReached(ar, s) {
      var t := Absorb(ar, max, s);
      if t.failed {
        assert !HeadReached(ar, t);
      } else {
        MergeMoves(ar, max, t);
      }
    }
  }

  /**
   A call that brings nothing new answers nothing; every other call answers what the scan finds in the buffer it leaves.
   */
  lemma AnswersNewsOnly(ar: Arithmetic, max: nat, s: State, seqNo: int, payload: bytes)
    ensures var r := Deliver(ar, max, s, seqNo, payload);
            Answer(ar, max, s, seqNo, payload)
            == if r.buffer == s.buffer && r.outOfOrder == s.outOfOrder then NotFound else Scan(r.buffer)
  {
    hide Merge, Store, AlreadyStored, ScanHello;
    var r := Deliver(ar, max, s, seqNo, payload);
    assert Scan([]) == NotFound;
    if s.failed || payload == [] { return; }
    var t := Anchored(s, seqNo);
    var overlap := Overlap(ar, t, seqNo);
    if overlap < |payload| && t.memory + |Unseen(payload, overlap)| <= max {
      if overlap < 0 {
        StoreIsNews(ar, t, Segment(seqNo, payload));
      } else {
        var data := Unseen(payload, overlap);
        MergeMoves(ar, max, t.(buffer := t.buffer + data, expected := ar.Advance(t.expected, |data|),
                               memory := t.memory + |data|));
      }
    }
    hide Scan;
  }

  /** Once known, the position is never forgotten and never goes back, and it moves by what the buffer gains. */
  lemma PositionNeverGoesBack(max: nat, s: State, c: Call)
    requires s.initialized
    ensures var r := Step(Exact, max, s, c);
            && r.initialized && r.expected >= s.expected
            && (c.Arrive? && !r.failed ==> r.expected - s.expected == |r.buffer| - |s.buffer|)
            && (c.Clear? ==> r.expected == s.expected)
  {
    hide Merge, Store;
    if c.Clear? || s.failed || c.payload == [] { return; }
    var overlap := Overlap(Exact, s, c.seqNo);
    if overlap < |c.payload| && s.memory + |Unseen(c.payload, overlap)| <= max {
      if overlap < 0 {
        StoreKeepsRest(Exact, s, Segment(c.seqNo, c.payload));
      } else {
        var data := Unseen(c.payload, overlap);
        MergeMoves(Exact, max, s.(buffer := s.buffer + data, expected := s.expected + |data|,
                                  memory := s.memory + |data|));
      }
    }
  }

  lemma StoreKeepsRest(ar: Arithmetic, s: State, seg: Segment)
    ensures var r := Store(ar, s, seg);
            r.buffer == s.buffer && r.expected == s.expected && r.initialized == s.initialized && r.failed == s.failed
  {
  }

  /** The first segment fixes the position, and a failed object takes nothing until it is cleared. */
  lemma FirstAndFailed(ar: Arithmetic, max: nat, s: State, seqNo: int, payload: bytes)
    ensures s.failed ==> Deliver(ar, max, s, seqNo, payload) == s && Answer(ar, max, s, seqNo, payload) == NotFound
    ensures !s.failed && !s.initialized && s.buffer == [] && s.outOfOrder == [] && s.memory == 0
            && 0 < |payload| <= max ==>
              var r := Deliver(ar, max, s, seqNo, payload);
              r == State(payload, ar.Advance(seqNo, |payload|), true, [], |payload|, false)
  {
    assert ar.Diff(seqNo, seqNo) == 0;
    assert [] + payload == payload;
  }
}
