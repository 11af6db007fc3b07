/**
 The bounded TCP reassembler: its state machine as a function of one call, and the class whose methods
 update the same fields in place. The machine is written once over two arithmetics: Wrapping is what the
 engine runs (32-bit sequence numbers), Exact is the same machine on unbounded stream offsets.
 */
module Reassembly {
  import opened Bytes
  import opened SequenceNumbers
  import opened ClientHello

  datatype Arithmetic = Wrapping | Exact {
    /** Signed distance from s2 to s1. */
    function Diff(s1: int, s2: int): int {
      if Wrapping? then SeqDiff(s1, s2) else s1 - s2
    }

    function Advance(s: int, n: int): int {
      if Wrapping? then Wrap32(s + n) else s + n
    }
  }

  datatype Segment = Segment(seqNo: int, data: bytes)

  datatype State = State(
    buffer: bytes,              // in-order contiguous bytes
    expected: int,              // next sequence number expected
    initialized: bool,          // expected is meaningful
    outOfOrder: seq<Segment>,   // segments beyond the gap, sorted
    memory: int,                // the aggregate limit counter
    failed: bool)

  const Initial: State := State([], 0, false, [], 0, false)

  /** clear(): forgets the data and the failure, but neither expected nor initialized. */
  function Cleared(s: State): State {
    s.(buffer := [], outOfOrder := [], memory := 0, failed := false)
  }

  function Fail(s: State): State {
    Cleared(s).(failed := true)
  }

  /** std::lower_bound under Segment::operator<: first position whose segment is not before seqNo. */
  function LowerBound(ar: Arithmetic, segments: seq<Segment>, seqNo: int): (i: nat)
    ensures i <= |segments|
    ensures forall k :: 0 <= k < i ==> ar.Diff(segments[k].seqNo, seqNo) < 0
    ensures i < |segments| ==> ar.Diff(segments[i].seqNo, seqNo) >= 0
  {
    if segments == [] || ar.Diff(segments[0].seqNo, seqNo) >= 0 then 0
    else 1 + LowerBound(ar, segments[1..], seqNo)
  }

  /** Number of leading bytes of a segment that precede the expected position. */
  function Overlap(ar: Arithmetic, s: State, seqNo: int): int {
    -ar.Diff(seqNo, s.expected)
  }

  /** The buffer has reached the first stored segment. */
  predicate HeadReached(ar: Arithmetic, s: State) {
    s.outOfOrder != [] && ar.Diff(s.outOfOrder[0].seqNo, s.expected) <= 0
  }

  /** One round of the merge loop: the first stored segment leaves the list, its new bytes enter the buffer. */
  function Absorb(ar: Arithmetic, max: nat, s: State): (t: State)
    requires HeadReached(ar, s)
    ensures |t.outOfOrder| < |s.outOfOrder|
  {
    var data := s.outOfOrder[0].data;
    var overlap := Overlap(ar, s, s.outOfOrder[0].seqNo);
    var rest := s.(memory := s.memory - |data|, outOfOrder := s.outOfOrder[1..]);
    if overlap >= |data| then rest
    else if |s.buffer| + |data| - overlap > max then Fail(s)
    else rest.(buffer := s.buffer + data[overlap..], expected := ar.Advance(s.expected, |data| - overlap))
  }

  /** mergeOutOfOrder(): absorbs stored segments until a gap is reached or the limit is exceeded. */
  function Merge(ar: Arithmetic, max: nat, s: State): State
    decreases |s.outOfOrder|
  {
    if HeadReached(ar, s) then Merge(ar, max, Absorb(ar, max, s)) else s
  }

  /** A segment starting exactly at the expected position. */
  function Append(ar: Arithmetic, max: nat, s: State, data: bytes): State {
    Merge(ar, max, s.(
      buffer := s.buffer + data,
      expected := ar.Advance(s.expected, |data|),
      memory := s.memory + |data|))
  }

  /** True when an equally long or longer segment with the same start is already stored. */
  predicate AlreadyStored(ar: Arithmetic, s: State, seg: Segment) {
    var i := LowerBound(ar, s.outOfOrder, seg.seqNo);
    i < |s.outOfOrder| && s.outOfOrder[i].seqNo == seg.seqNo && |seg.data| <= |s.outOfOrder[i].data|
  }

  /** A segment beyond the gap: inserted in order, or replacing a shorter one with the same start. */
  function Store(ar: Arithmetic, s: State, seg: Segment): State {
    var i := LowerBound(ar, s.outOfOrder, seg.seqNo);
    if i < |s.outOfOrder| && s.outOfOrder[i].seqNo == seg.seqNo then
      if AlreadyStored(ar, s, seg) then s
      else s.(outOfOrder := s.outOfOrder[i := seg], memory := s.memory - |s.outOfOrder[i].data| + |seg.data|)
    else
      s.(outOfOrder := s.outOfOrder[..i] + [seg] + s.outOfOrder[i..], memory := s.memory + |seg.data|)
  }

  /** The first payload-carrying segment fixes the expected sequence number. */
  function Anchored(s: State, seqNo: int): State {
    if s.initialized then s else s.(expected := seqNo, initialized := true)
  }

  /** The payload without its leading overlap bytes. */
  function Unseen(payload: bytes, overlap: int): bytes
    requires overlap <= |payload|
  {
    if overlap > 0 then payload[overlap..] else payload
  }

  /** State after tryExtractSNI(seqNo, payload). */
  function Deliver(ar: Arithmetic, max: nat, s: State, seqNo: int, payload: bytes): State {
    if s.failed || payload == [] then s
    else
      var t := Anchored(s, seqNo);
      var overlap := Overlap(ar, t, seqNo);
      if overlap >= |payload| then t
      else if t.memory + |Unseen(payload, overlap)| > max then Fail(t)
      else if overlap >= 0 then Append(ar, max, t, Unseen(payload, overlap))
      else Store(ar, t, Segment(seqNo, payload))
  }

  /** Whether tryExtractSNI reaches the scan of the buffer instead of returning early. */
  predicate ReachesScan(ar: Arithmetic, max: nat, s: State, seqNo: int, payload: bytes) {
    && !s.failed
    && payload != []
    && var t := Anchored(s, seqNo);
       var overlap := Overlap(ar, t, seqNo);
       && overlap < |payload|
       && t.memory + |Unseen(payload, overlap)| <= max
       && (overlap < 0 ==> !AlreadyStored(ar, t, Segment(seqNo, payload)))
       && Deliver(ar, max, s, seqNo, payload).buffer != []
  }

  /** What tryExtractSNI(seqNo, payload) answers. */
  function Answer(ar: Arithmetic, max: nat, s: State, seqNo: int, payload: bytes): ScanOutcome {
    if ReachesScan(ar, max, s, seqNo, payload) then Scan(Deliver(ar, max, s, seqNo, payload).buffer) else NotFound
  }

  // ---------------------------------------------------------------- the class

  class TcpReassembler {
    const maxBufferBytes: nat
    var buffer: bytes
    var expectedSeq: int
    var expectedSeqInitialized: bool
    var outOfOrder: seq<Segment>
    var currentMemoryUsage: int
    var failed: bool

    constructor (maxBufferBytes: nat)
      ensures this.maxBufferBytes == maxBufferBytes
      ensures Current() == Initial
    {
      this.maxBufferBytes := maxBufferBytes;
      buffer, expectedSeq, expectedSeqInitialized, outOfOrder, currentMemoryUsage, failed := [], 0, false, [], 0, false;
    }

    ghost function Current(): State
      reads this
    {
      State(buffer, expectedSeq, expectedSeqInitialized, outOfOrder, currentMemoryUsage, failed)
    }

    method Clear()
      modifies this
      ensures Current() == Cleared(old(Current()))
    {
      buffer := [];
      outOfOrder := [];
      currentMemoryUsage := 0;
      failed := false;
    }

    method MergeOutOfOrder()
      modifies this
      ensures Current() == Merge(Wrapping, maxBufferBytes, old(Current()))
    {
      while outOfOrder != []
        invariant Merge(Wrapping, maxBufferBytes, Current()) == Merge(Wrapping, maxBufferBytes, old(Current()))
        decreases |outOfOrder|
      {
        var head := outOfOrder[0];
        var diff := SeqDiff(head.seqNo, expectedSeq);
        if diff > 0 { break; }
        var overlapBytes := -diff;
        if overlapBytes < |head.data| {
          var newBytes := |head.data| - overlapBytes;
          if |buffer| + newBytes > maxBufferBytes {
            Clear();
            failed := true;
            return;
          }
          buffer := buffer + head.data[overlapBytes..];
          expectedSeq := Wrap32(expectedSeq + newBytes);
        }
        currentMemoryUsage := currentMemoryUsage - |head.data|;
        outOfOrder := outOfOrder[1..];
      }
    }

    /** The out-of-order branch; returns false for a duplicate of a stored segment. */
    method StoreOutOfOrder(segment: Segment) returns (stored: bool)
      modifies this
      ensures Current() == Store(Wrapping, old(Current()), segment)
      ensures stored == !AlreadyStored(Wrapping, old(Current()), segment)
    {
      var at := LowerBound(Wrapping, outOfOrder, segment.seqNo);
      if at < |outOfOrder| && outOfOrder[at].seqNo == segment.seqNo {
        if |segment.data| <= |outOfOrder[at].data| { return false; }
        currentMemoryUsage := currentMemoryUsage - |outOfOrder[at].data|;
        outOfOrder := outOfOrder[at := segment];
        currentMemoryUsage := currentMemoryUsage + |segment.data|;
      } else {
        outOfOrder := outOfOrder[..at] + [segment] + outOfOrder[at..];
        currentMemoryUsage := currentMemoryUsage + |segment.data|;
      }
      stored := true;
    }

    /** The in-order branch: append, then merge what the gap was holding back. */
    method AppendInOrder(data: bytes)
      modifies this
      ensures Current() == Append(Wrapping, maxBufferBytes, old(Current()), data)
    {
      buffer := buffer + data;
      currentMemoryUsage := currentMemoryUsage + |data|;
      expectedSeq := Wrap32(expectedSeq + |data|);
      MergeOutOfOrder();
    }

    method TryExtractSni(seqNo: int, payload: bytes) returns (sni: ScanOutcome)
      modifies this
      ensures Current() == Deliver(Wrapping, maxBufferBytes, old(Current()), seqNo, payload)
      ensures sni == Answer(Wrapping, maxBufferBytes, old(Current()), seqNo, payload)
    {
      if failed || |payload| == 0 { return NotFound; }
      if !expectedSeqInitialized {
        expectedSeq := seqNo;
        expectedSeqInitialized := true;
      }
      var start, data := seqNo, payload;
      var diff := SeqDiff(seqNo, expectedSeq);
      if diff < 0 {
        var overlapBytes := -diff;
        if overlapBytes >= |data| { return NotFound; }
        start, data, diff := Wrap32(start + overlapBytes), data[overlapBytes..], 0;
      }
      if currentMemoryUsage + |data| > maxBufferBytes {
        Clear();
        failed := true;
        return NotFound;
      }
      if diff == 0 {
        AppendInOrder(data);
      } else {
        var stored := StoreOutOfOrder(Segment(start, data));
        if !stored { return NotFound; }
      }
      if buffer == [] { return NotFound; }
      sni := ScanForSni(buffer);
    }
  }
}
