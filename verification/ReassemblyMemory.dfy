/**
 Memory accounting of the reassembler over whole runs. Nothing here depends on sequence numbers being in
 range: every result holds for every arithmetic, every limit and every list of calls.
 */
module ReassemblyMemory {
  import opened Bytes
  import opened SequenceNumbers
  import opened Reassembly

  datatype Call = Arrive(seqNo: int, payload: bytes) | Clear

  function Step(ar: Arithmetic, max: nat, s: State, c: Call): State {
    match c
    case Arrive(seqNo, payload) => Deliver(ar, max, s, seqNo, payload)
    case Clear => Cleared(s)
  }

  function Run(ar: Arithmetic, max: nat, calls: seq<Call>): State {
    if calls == [] then Initial
    else Step(ar, max, Run(ar, max, calls[..|calls| - 1]), calls[|calls| - 1])
  }

  /** Bytes held by stored segments. */
  function Sizes(segments: seq<Segment>): nat {
    if segments == [] then 0 else |segments[0].data| + Sizes(segments[1..])
  }

  /** All payload bytes the object holds. */
  function Footprint(s: State): nat {
    |s.buffer| + Sizes(s.outOfOrder)
  }

  /** Bytes the call appends to the buffer straight from its payload. */
  function DirectBytes(ar: Arithmetic, s: State, seqNo: int, payload: bytes): nat {
    if s.failed || payload == [] then 0
    else
      var overlap := Overlap(ar, Anchored(s, seqNo), seqNo);
      if 0 <= overlap < |payload| then |payload| - overlap else 0
  }

  /** Directly appended bytes since the last clear or failure. */
  function Direct(ar: Arithmetic, max: nat, calls: seq<Call>): nat {
    if calls == [] then 0
    else
      var before := calls[..|calls| - 1];
      var s := Run(ar, max, before);
      match calls[|calls| - 1]
      case Clear => 0
      case Arrive(seqNo, payload) =>
        if Deliver(ar, max, s, seqNo, payload).failed then 0
        else Direct(ar, max, before) + DirectBytes(ar, s, seqNo, payload)
  }

  lemma {:induction false} SizesConcat(a: seq<Segment>, b: seq<Segment>)
    ensures Sizes(a + b) == Sizes(a) + Sizes(b)
  {
    if a == [] {
      assert a + b == b;
    } else {
      SizesConcat(a[1..], b);
      assert (a + b)[1..] == a[1..] + b;
    }
  }

  lemma SizesInsert(a: seq<Segment>, i: nat, seg: Segment)
    requires i <= |a|
    ensures Sizes(a[..i] + [seg] + a[i..]) == Sizes(a) + |seg.data|
  {
    assert a == a[..i] + a[i..];
    assert a[..i] + [seg] + a[i..] == a[..i] + ([seg] + a[i..]);
    SizesConcat(a[..i], a[i..]);
    SizesConcat(a[..i], [seg] + a[i..]);
  }

  lemma SizesReplace(a: seq<Segment>, i: nat, seg: Segment)
    requires i < |a|
    ensures Sizes(a[i := seg]) == Sizes(a) - |a[i].data| + |seg.data|
    ensures Sizes(a) >= |a[i].data|
  {
    assert a == a[..i] + ([a[i]] + a[i + 1..]);
    assert a[i := seg] == a[..i] + ([seg] + a[i + 1..]);
    SizesConcat(a[..i], [a[i]] + a[i + 1..]);
    SizesConcat(a[..i], [seg] + a[i + 1..]);
  }

  /** The accounting invariant, with `direct` the bytes appended directly since the last clear. */
  ghost predicate Accounted(max: nat, s: State, direct: nat) {
    && s.memory == direct + Sizes(s.outOfOrder)
    && s.memory <= max
    && (|s.buffer| <= direct || |s.buffer| + 1 <= max + direct)
    && (s.failed ==> s.buffer == [] && s.outOfOrder == [] && direct == 0)
  }

  lemma AbsorbAccounts(ar: Arithmetic, max: nat, s: State, direct: nat)
    requires Accounted(max, s, direct) && !s.failed && 0 < direct && HeadReached(ar, s)
    ensures var r := Absorb(ar, max, s);
            Accounted(max, r, if r.failed then 0 else direct)
  {
  }

  lemma {:induction false} MergeAccounts(ar: Arithmetic, max: nat, s: State, direct: nat)
    requires Accounted(max, s, direct) && !s.failed && 0 < direct
    ensures var r := Merge(ar, max, s);
            Accounted(max, r, if r.failed then 0 else direct)
    decreases |s.outOfOrder|
  {
    if HeadReached(ar, s) {
      AbsorbAccounts(ar, max, s, direct);
      var t := Absorb(ar, max, s);
      if !t.failed { MergeAccounts(ar, max, t, direct); }
    }
  }

  lemma StoreAccounts(ar: Arithmetic, max: nat, s: State, direct: nat, seg: Segment)
    requires Accounted(max, s, direct) && !s.failed
    requires s.memory + |seg.data| <= max
    ensures Accounted(max, Store(ar, s, seg), direct)
  {
    var i := LowerBound(ar, s.outOfOrder, seg.seqNo);
    if i < |s.outOfOrder| { SizesReplace(s.outOfOrder, i, seg); }
    SizesInsert(s.outOfOrder, i, seg);
  }

  lemma AppendAccounts(ar: Arithmetic, max: nat, s: State, direct: nat, data: bytes)
    requires Accounted(max, s, direct) && !s.failed && data != []
    requires s.memory + |data| <= max
    ensures var r := Append(ar, max, s, data);
            Accounted(max, r, if r.failed then 0 else direct + |data|)
  {
    MergeAccounts(ar, max, s.(buffer := s.buffer + data, expected := ar.Advance(s.expected, |data|),
                              memory := s.memory + |data|), direct + |data|);
  }

  lemma DeliverAccounts(ar: Arithmetic, max: nat, s: State, direct: nat, seqNo: int, payload: bytes)
    requires Accounted(max, s, direct)
    ensures var r := Deliver(ar, max, s, seqNo, payload);
            Accounted(max, r, if r.failed then 0 else direct + DirectBytes(ar, s, seqNo, payload))
  {
    if s.failed || payload == [] { return; }
    var t := Anchored(s, seqNo);
    var overlap := Overlap(ar, t, seqNo);
    if overlap >= |payload| || t.memory + |Unseen(payload, overlap)| > max {
    } else if overlap >= 0 {
      AppendAccounts(ar, max, t, direct, Unseen(payload, overlap));
    } else {
      StoreAccounts(ar, max, t, direct, Segment(seqNo, payload));
    }
  }

  /**
   In every reachable state the counter equals the directly appended bytes plus the sizes of all stored
   segments, it never underflows and it never exceeds the configured limit.
   */
  lemma {:induction false} CounterIsExact(ar: Arithmetic, max: nat, calls: seq<Call>)
    ensures Accounted(max, Run(ar, max, calls), Direct(ar, max, calls))
    ensures 0 <= Run(ar, max, calls).memory <= max
    ensures Run(ar, max, calls).memory == Direct(ar, max, calls) + Sizes(Run(ar, max, calls).outOfOrder)
  {
    if calls != [] {
      var before := calls[..|calls| - 1];
      CounterIsExact(ar, max, before);
      match calls[|calls| - 1]
      case Clear =>
      case Arrive(seqNo, payload) =>
        DeliverAccounts(ar, max, Run(ar, max, before), Direct(ar, max, before), seqNo, payload);
    }
  }

  /** The aggregate bound the code does guarantee: twice the limit, less one. */
  lemma FootprintBound(ar: Arithmetic, max: nat, calls: seq<Call>)
    requires max > 0
    ensures Footprint(Run(ar, max, calls)) <= 2 * max - 1
  {
    CounterIsExact(ar, max, calls);
  }

  /** Payload bytes the merge loop throws away because the buffer already has them. */
  function MergeDrops(ar: Arithmetic, max: nat, s: State): nat
    decreases |s.outOfOrder|
  {
    if !HeadReached(ar, s) then 0
    else
      var overlap := Overlap(ar, s, s.outOfOrder[0].seqNo);
      var size := |s.outOfOrder[0].data|;
      (if overlap < size then overlap else size) + MergeDrops(ar, max, Absorb(ar, max, s))
  }

  /** Bytes an accepted call throws away: merge overlaps, the replaced segment, or a duplicate payload. */
  function Dropped(ar: Arithmetic, max: nat, s: State, seqNo: int, unseen: bytes): nat {
    if Overlap(ar, s, seqNo) >= 0 then
      MergeDrops(ar, max, s.(buffer := s.buffer + unseen, expected := ar.Advance(s.expected, |unseen|),
                             memory := s.memory + |unseen|))
    else
      var i := LowerBound(ar, s.outOfOrder, seqNo);
      if i == |s.outOfOrder| || s.outOfOrder[i].seqNo != seqNo then 0
      else if AlreadyStored(ar, s, Segment(seqNo, unseen)) then |unseen|
      else |s.outOfOrder[i].data|
  }

  lemma {:induction false} MergeConserves(ar: Arithmetic, max: nat, s: State)
    requires !Merge(ar, max, s).failed
    ensures Footprint(Merge(ar, max, s)) + MergeDrops(ar, max, s) == Footprint(s)
    decreases |s.outOfOrder|
  {
    if HeadReached(ar, s) {
      MergeConserves(ar, max, Absorb(ar, max, s));
    }
  }

  /** No byte is lost or counted twice: an accepted call adds its unseen bytes and drops exactly Dropped. */
  lemma FootprintConserved(ar: Arithmetic, max: nat, s: State, seqNo: int, payload: bytes)
    requires s.initialized && !s.failed
    requires Overlap(ar, s, seqNo) < |payload|
    requires !Deliver(ar, max, s, seqNo, payload).failed
    ensures var unseen := Unseen(payload, Overlap(ar, s, seqNo));
            Footprint(Deliver(ar, max, s, seqNo, payload)) + Dropped(ar, max, s, seqNo, unseen)
              == Footprint(s) + |unseen|
  {
    var overlap := Overlap(ar, s, seqNo);
    if payload == [] {
    } else if overlap >= 0 {
      var unseen := Unseen(payload, overlap);
      MergeConserves(ar, max, s.(buffer := s.buffer + unseen, expected := ar.Advance(s.expected, |unseen|),
                                 memory := s.memory + |unseen|));
    } else {
      StoreConserves(ar, max, s, seqNo, payload);
    }
  }

  lemma StoreConserves(ar: Arithmetic, max: nat, s: State, seqNo: int, payload: bytes)
    requires Overlap(ar, s, seqNo) < 0
    ensures Footprint(Store(ar, s, Segment(seqNo, payload))) + Dropped(ar, max, s, seqNo, payload)
            == Footprint(s) + |payload|
  {
    var i := LowerBound(ar, s.outOfOrder, seqNo);
    if i < |s.outOfOrder| { SizesReplace(s.outOfOrder, i, Segment(seqNo, payload)); }
    SizesInsert(s.outOfOrder, i, Segment(seqNo, payload));
  }

  // ---------------------------------------------------------------- exactly when the documented limit is kept

  /** Bytes the merge loop moves from stored segments into the buffer. */
  function MergeGain(ar: Arithmetic, max: nat, s: State): nat
    decreases |s.outOfOrder|
  {
    if !HeadReached(ar, s) then 0
    else
      var overlap := Overlap(ar, s, s.outOfOrder[0].seqNo);
      var size := |s.outOfOrder[0].data|;
      (if overlap < size then size - overlap else 0) + MergeGain(ar, max, Absorb(ar, max, s))
  }

  lemma {:induction false} MergeGains(ar: Arithmetic, max: nat, s: State)
    requires !Merge(ar, max, s).failed
    ensures |Merge(ar, max, s).buffer| == |s.buffer| + MergeGain(ar, max, s)
    decreases |s.outOfOrder|
  {
    if HeadReached(ar, s) { MergeGains(ar, max, Absorb(ar, max, s)); }
  }

  /** Bytes a call moves from stored segments into the buffer. */
  function MergedBytes(ar: Arithmetic, max: nat, s: State, seqNo: int, payload: bytes): nat {
    if s.failed || payload == [] then 0
    else
      var t := Anchored(s, seqNo);
      var overlap := Overlap(ar, t, seqNo);
      if 0 <= overlap < |payload| then
        var data := Unseen(payload, overlap);
        MergeGain(ar, max, t.(buffer := t.buffer + data, expected := ar.Advance(t.expected, |data|),
                              memory := t.memory + |data|))
      else 0
  }

  /** Bytes moved from stored segments into the buffer since the last clear or failure; the counter forgets them. */
  function Merged(ar: Arithmetic, max: nat, calls: seq<Call>): nat {
    if calls == [] then 0
    else
      var before := calls[..|calls| - 1];
      var s := Run(ar, max, before);
      match calls[|calls| - 1]
      case Clear => 0
      case Arrive(seqNo, payload) =>
        if Deliver(ar, max, s, seqNo, payload).failed then 0
        else Merged(ar, max, before) + MergedBytes(ar, max, s, seqNo, payload)
  }

  lemma BufferGrows(ar: Arithmetic, max: nat, s: State, seqNo: int, payload: bytes)
    requires !Deliver(ar, max, s, seqNo, payload).failed
    ensures |Deliver(ar, max, s, seqNo, payload).buffer|
         == |s.buffer| + DirectBytes(ar, s, seqNo, payload) + MergedBytes(ar, max, s, seqNo, payload)
  {
    hide Merge, MergeGain, Store;
    if s.failed || payload == [] { return; }
    var t := Anchored(s, seqNo);
    var overlap := Overlap(ar, t, seqNo);
    if 0 <= overlap < |payload| {
      var data := Unseen(payload, overlap);
      MergeGains(ar, max, t.(buffer := t.buffer + data, expected := ar.Advance(t.expected, |data|),
                             memory := t.memory + |data|));
    } else if overlap < 0 {
      StoreKeepsBuffer(ar, t, Segment(seqNo, payload));
    }
  }

  lemma StoreKeepsBuffer(ar: Arithmetic, s: State, seg: Segment)
    ensures Store(ar, s, seg).buffer == s.buffer
  {
  }

  lemma {:induction false} BufferIsDirectPlusMerged(ar: Arithmetic, max: nat, calls: seq<Call>)
    ensures |Run(ar, max, calls).buffer| == Direct(ar, max, calls) + Merged(ar, max, calls)
  {
    if calls != [] {
      var before := calls[..|calls| - 1];
      BufferIsDirectPlusMerged(ar, max, before);
      CounterIsExact(ar, max, calls);
      match calls[|calls| - 1]
      case Clear =>
      case Arrive(seqNo, payload) =>
        if !Deliver(ar, max, Run(ar, max, before), seqNo, payload).failed {
          BufferGrows(ar, max, Run(ar, max, before), seqNo, payload);
        }
        hide Deliver, DirectBytes, MergedBytes, Sizes;
    }
  }

  /** In every run the bytes held are what the counter says plus what was merged since the last clear. */
  lemma HeldIsCounterPlusMerged(ar: Arithmetic, max: nat, calls: seq<Call>)
    ensures Footprint(Run(ar, max, calls)) == Run(ar, max, calls).memory + Merged(ar, max, calls)
  {
    BufferIsDirectPlusMerged(ar, max, calls);
    CounterIsExact(ar, max, calls);
  }

  lemma {:induction false} MergeWithin(ar: Arithmetic, max: nat, s: State, total: nat)
    requires !s.failed && Footprint(s) <= total <= max && s.memory <= total
    ensures var r := Merge(ar, max, s);
            !r.failed && Footprint(r) <= total && r.memory <= total
    decreases |s.outOfOrder|
  {
    if HeadReached(ar, s) {
      MergeWithin(ar, max, Absorb(ar, max, s), total);
    }
  }

  lemma DeliverWithin(ar: Arithmetic, max: nat, s: State, total: nat, seqNo: int, payload: bytes)
    requires !s.failed && Footprint(s) <= total && s.memory <= total && total + |payload| <= max
    ensures var r := Deliver(ar, max, s, seqNo, payload);
            !r.failed && Footprint(r) <= total + |payload| && r.memory <= total + |payload|
  {
    hide Merge, Store, Sizes;
    if payload == [] { return; }
    var t := Anchored(s, seqNo);
    var overlap := Overlap(ar, t, seqNo);
    if overlap >= |payload| {
    } else if overlap >= 0 {
      var data := Unseen(payload, overlap);
      MergeWithin(ar, max, t.(buffer := t.buffer + data, expected := ar.Advance(t.expected, |data|),
                              memory := t.memory + |data|), total + |payload|);
    } else {
      StoreWithin(ar, t, Segment(seqNo, payload));
    }
  }

  lemma StoreWithin(ar: Arithmetic, s: State, seg: Segment)
    ensures var r := Store(ar, s, seg);
            r.failed == s.failed && Footprint(r) <= Footprint(s) + |seg.data| && r.memory <= s.memory + |seg.data|
  {
    var i := LowerBound(ar, s.outOfOrder, seg.seqNo);
    if i < |s.outOfOrder| { SizesReplace(s.outOfOrder, i, seg); }
    SizesInsert(s.outOfOrder, i, seg);
  }

  /** Payload bytes delivered since the last clear. */
  function DeliveredSince(calls: seq<Call>): nat {
    if calls == [] then 0
    else
      match calls[|calls| - 1]
      case Clear => 0
      case Arrive(_, payload) => DeliveredSince(calls[..|calls| - 1]) + |payload|
  }

  /** While the lengths delivered since the last clear total at most the limit, nothing fails and the limit is kept. */
  lemma {:induction false} LimitKeptWithin(ar: Arithmetic, max: nat, calls: seq<Call>)
    requires DeliveredSince(calls) <= max
    ensures var s := Run(ar, max, calls);
            !s.failed && Footprint(s) <= DeliveredSince(calls) && s.memory <= DeliveredSince(calls)
  {
    if calls != [] {
      var before := calls[..|calls| - 1];
      match calls[|calls| - 1]
      case Clear =>
      case Arrive(seqNo, payload) =>
        LimitKeptWithin(ar, max, before);
        DeliverWithin(ar, max, Run(ar, max, before), DeliveredSince(before), seqNo, payload);
    }
  }

  /** Calls that deliver n > max bytes after a clear and hold max + 1: one byte is merged, and one more is let in. */
  function Exceeding(max: nat, n: nat): (calls: seq<Call>)
    requires 2 <= max < n && max < TWO_31
    decreases n
  {
    if n == max + 1 then
      [Arrive(0, [0]), Clear, Arrive(2, [0]), Arrive(1, [0]), Arrive(4, Zeros(max - 1))]
    else Exceeding(max, n - 1) + [Arrive(1, [0])]
  }

  /** The object then: the buffer has reached 3 and a segment of max - 1 bytes waits behind a gap. */
  function Exceeded(max: nat): State
    requires 2 <= max
  {
    State([0, 0], 3, true, [Segment(4, Zeros(max - 1))], max, false)
  }

  lemma ExceedingFirst(max: nat)
    requires 2 <= max < TWO_31
    ensures Cleared(Deliver(Wrapping, max, Initial, 0, [0])) == State([], 1, true, [], 0, false)
    ensures Deliver(Wrapping, max, State([], 1, true, [], 0, false), 2, [0])
         == State([], 1, true, [Segment(2, [0])], 1, false)
  {
    assert [] + [0 as byte] == [0];
    assert [] + [Segment(2, [0])] + [] == [Segment(2, [0])];
  }

  lemma ExceedingMerge(max: nat)
    requires 2 <= max < TWO_31
    ensures Deliver(Wrapping, max, State([], 1, true, [Segment(2, [0])], 1, false), 1, [0])
         == State([0, 0], 3, true, [], 1, false)
  {
    var m := State([0], 2, true, [Segment(2, [0])], 2, false);
    assert [] + [0 as byte] == [0] && [0 as byte][0..] == [0] && [0 as byte] + [0] == [0, 0];
    assert [Segment(2, [0])][1..] == [];
    assert Absorb(Wrapping, max, m) == State([0, 0], 3, true, [], 1, false);
    assert Deliver(Wrapping, max, State([], 1, true, [Segment(2, [0])], 1, false), 1, [0]) == Merge(Wrapping, max, m);
  }

  lemma ExceedingLast(max: nat)
    requires 2 <= max < TWO_31
    ensures Deliver(Wrapping, max, State([0, 0], 3, true, [], 1, false), 4, Zeros(max - 1)) == Exceeded(max)
    ensures Deliver(Wrapping, max, Exceeded(max), 1, [0]) == Exceeded(max)
    ensures Footprint(Exceeded(max)) == max + 1
  {
    var seg := Segment(4, Zeros(max - 1));
    assert [] + [seg] + [] == [seg] && [seg][1..] == [];
    assert Exceeded(max).outOfOrder == [seg] && Sizes([seg]) == |seg.data| + Sizes([]);
  }

  /** One more segment: its step, and its bytes counted. */
  lemma OneMore(max: nat, calls: seq<Call>, seqNo: int, payload: bytes)
    ensures Run(Wrapping, max, calls + [Arrive(seqNo, payload)])
         == Deliver(Wrapping, max, Run(Wrapping, max, calls), seqNo, payload)
    ensures DeliveredSince(calls + [Arrive(seqNo, payload)]) == DeliveredSince(calls) + |payload|
  {
    assert (calls + [Arrive(seqNo, payload)])[..|calls|] == calls;
    hide Deliver;
  }

  lemma ClearedAtLast(max: nat, calls: seq<Call>)
    ensures Run(Wrapping, max, calls + [Clear]) == Cleared(Run(Wrapping, max, calls))
    ensures DeliveredSince(calls + [Clear]) == 0
  {
    assert (calls + [Clear])[..|calls|] == calls;
    hide Cleared;
  }

  lemma ExceedingFive(max: nat, z: bytes)
    requires 2 <= max < TWO_31 && z == Zeros(max - 1)
    ensures Exceeding(max, max + 1) == [Arrive(0, [0])] + [Clear] + [Arrive(2, [0])] + [Arrive(1, [0])] + [Arrive(4, z)]
    ensures Run(Wrapping, max, []) == Initial && [] + [Arrive(0, [0])] == [Arrive(0, [0])]
  {
  }

  lemma ExceedingRunOfFive(max: nat)
    requires 2 <= max < TWO_31
    ensures Run(Wrapping, max, Exceeding(max, max + 1)) == Exceeded(max)
    ensures DeliveredSince(Exceeding(max, max + 1)) == max + 1
  {
    hide *;
    var z := Zeros(max - 1);
    var one := [Arrive(0, [0])];
    ExceedingFive(max, z);
    OneMore(max, [], 0, [0]);
    ClearedAtLast(max, one);
    OneMore(max, one + [Clear], 2, [0]);
    OneMore(max, one + [Clear] + [Arrive(2, [0])], 1, [0]);
    OneMore(max, one + [Clear] + [Arrive(2, [0])] + [Arrive(1, [0])], 4, z);
    ExceedingFirst(max);
    ExceedingMerge(max);
    ExceedingLast(max);
  }

  /** Late copies of a byte already in the buffer change nothing. */
  lemma {:induction false} ExceedingRun(max: nat, n: nat)
    requires 2 <= max < n && max < TWO_31
    ensures Run(Wrapping, max, Exceeding(max, n)) == Exceeded(max)
    ensures DeliveredSince(Exceeding(max, n)) == n
    decreases n
  {
    hide *;
    if n == max + 1 {
      ExceedingRunOfFive(max);
    } else {
      ExceedingRun(max, n - 1);
      ExceedingStep(max, n);
      OneMore(max, Exceeding(max, n - 1), 1, [0]);
      ExceedingLast(max);
    }
  }

  lemma ExceedingStep(max: nat, n: nat)
    requires 2 <= max && max + 1 < n && max < TWO_31
    ensures Exceeding(max, n) == Exceeding(max, n - 1) + [Arrive(1, [0])]
  {
  }

  /**
   The documented limit is kept by every run that delivers n bytes since its last clear exactly if n is at most the
   limit.
   */
  lemma LimitKeptIff(max: nat, n: nat)
    requires 2 <= max < TWO_31
    ensures (forall calls :: DeliveredSince(calls) == n ==> Footprint(Run(Wrapping, max, calls)) <= max) <==> n <= max
  {
    hide Run, DeliveredSince, Footprint;
    if n <= max {
      forall calls | DeliveredSince(calls) == n
        ensures Footprint(Run(Wrapping, max, calls)) <= max
      {
        LimitKeptWithin(Wrapping, max, calls);
      }
    } else {
      ExceedingRun(max, n);
      ExceedingLast(max);
    }
  }

  /** Five calls that drive any limit to 2 * max - 1 held bytes, so the documented limit `max` fails. */
  function Overfill(max: nat): seq<Call>
    requires 0 < max < TWO_31
  {
    [Arrive(0, [0]), Clear, Arrive(2, Zeros(max - 1)), Arrive(1, [0]), Arrive(1 + max, Zeros(max - 1))]
  }

  function Zeros(n: nat): (z: bytes)
    ensures |z| == n
  {
    seq(n, i => 0)
  }

  lemma RunGoesOn(ar: Arithmetic, max: nat, calls: seq<Call>, c: Call)
    ensures Run(ar, max, calls + [c]) == Step(ar, max, Run(ar, max, calls), c)
  {
    assert (calls + [c])[..|calls|] == calls;
    hide Step;
  }

  /** The object after each of the five calls. */
  lemma OverfillSteps(max: nat)
    requires 1 < max < TWO_31
    ensures var z, seg := Zeros(max - 1), Segment(2, Zeros(max - 1));
            var s2 := State([], 1, true, [], 0, false);
            var s3 := State([], 1, true, [seg], max - 1, false);
            var s4 := State([0] + z, 1 + max, true, [], 1, false);
            && Cleared(Deliver(Wrapping, max, Initial, 0, [0])) == s2
            && Deliver(Wrapping, max, s2, 2, z) == s3
            && Deliver(Wrapping, max, s3, 1, [0]) == s4
            && Footprint(Deliver(Wrapping, max, s4, 1 + max, z)) == 2 * max - 1
  {
    var z, seg := Zeros(max - 1), Segment(2, Zeros(max - 1));
    var m := State([0], 2, true, [seg], max, false);
    assert seg.data[0..] == seg.data;
    assert Absorb(Wrapping, max, m) == State([0] + z, 1 + max, true, [], 1, false);
    assert [] + [0 as byte] == [0];
    assert Deliver(Wrapping, max, State([], 1, true, [seg], max - 1, false), 1, [0]) == Merge(Wrapping, max, m);
  }

  /** With a limit of one byte nothing is ever stored. */
  lemma OverfillStepsOfOne()
    ensures Cleared(Deliver(Wrapping, 1, Initial, 0, [0])) == State([], 1, true, [], 0, false)
    ensures Deliver(Wrapping, 1, State([], 1, true, [], 0, false), 2, []) == State([], 1, true, [], 0, false)
    ensures Footprint(Deliver(Wrapping, 1, State([0], 2, true, [], 1, false), 2, [])) == 1
  {
    assert [] + [0 as byte] == [0];
  }

  lemma OverfillAppendsOne()
    ensures Deliver(Wrapping, 1, State([], 1, true, [], 0, false), 1, [0]) == State([0], 2, true, [], 1, false)
  {
    assert [] + [0 as byte] == [0];
  }

  /** The five calls, one inside the other. */
  lemma OverfillRun(max: nat)
    requires 0 < max < TWO_31
    ensures var z := Zeros(max - 1);
            var s2 := Cleared(Deliver(Wrapping, max, Initial, 0, [0]));
            var s4 := Deliver(Wrapping, max, Deliver(Wrapping, max, s2, 2, z), 1, [0]);
            Run(Wrapping, max, Overfill(max)) == Deliver(Wrapping, max, s4, 1 + max, z)
  {
    var z := Zeros(max - 1);
    assert Run(Wrapping, max, []) == Initial;
    assert Overfill(max) == [] + [Arrive(0, [0])] + [Clear] + [Arrive(2, z)] + [Arrive(1, [0])] + [Arrive(1 + max, z)];
    hide Deliver, Run, Overfill, Zeros;
    var one := [] + [Arrive(0, [0])];
    RunGoesOn(Wrapping, max, [], Arrive(0, [0]));
    RunGoesOn(Wrapping, max, one, Clear);
    RunGoesOn(Wrapping, max, one + [Clear], Arrive(2, z));
    RunGoesOn(Wrapping, max, one + [Clear] + [Arrive(2, z)], Arrive(1, [0]));
    RunGoesOn(Wrapping, max, one + [Clear] + [Arrive(2, z)] + [Arrive(1, [0])], Arrive(1 + max, z));
  }

  lemma FootprintBoundIsReached(max: nat)
    requires 0 < max < TWO_31
    ensures Footprint(Run(Wrapping, max, Overfill(max))) == 2 * max - 1
    ensures max > 1 ==> Footprint(Run(Wrapping, max, Overfill(max))) > max
  {
    OverfillRun(max);
    if max == 1 {
      assert Zeros(0) == [];
      OverfillStepsOfOne();
      OverfillAppendsOne();
    } else {
      OverfillSteps(max);
    }
    hide Deliver, Run, Footprint, Overfill, Zeros;
  }

  // ---------------------------------------------------------------- after a clear

  /**
   clear() keeps the expected position, so the next segment is judged against the old one: it is let into the buffer
   if and only if it reaches from there or from before to beyond it. A fresh object takes any segment.
   */
  lemma ClearedJudgesByOldPosition(ar: Arithmetic, max: nat, s: State, seqNo: int, payload: bytes)
    requires s.initialized && 0 < |payload| <= max
    ensures var overlap := Overlap(ar, s, seqNo);
            var t := Deliver(ar, max, Cleared(s), seqNo, payload);
            && t.buffer == (if 0 <= overlap < |payload| then payload[overlap..] else [])
            && (t.buffer != [] <==> 0 <= overlap < |payload|)
            && (overlap >= |payload| ==> t == Cleared(s))
    ensures Deliver(ar, max, Initial, seqNo, payload).buffer == payload
  {
    assert ar.Diff(seqNo, seqNo) == 0;
  }
}
