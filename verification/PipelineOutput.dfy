/**
 What leaves the pipeline, in order: the packets of a fast path that are written, and those on their way to the file,
 are the forwarded ones of those it has processed, in the order it processed them.
 */
module PipelineOutput {
  import opened Flows
  import opened Pipeline
  import opened PipelineSafety
  import opened PipelineConservation
  import opened PipelineOwnership

  /** The packets of q with the verdict to forward, in order. */
  function ToForward(c: Config, q: seq<nat>): seq<nat> {
    if q == [] then []
    else ToForward(c, q[..|q| - 1]) + if Forwards(c, q[|q| - 1]) then [q[|q| - 1]] else []
  }

  lemma ToForwardMore(c: Config, q: seq<nat>, p: nat)
    ensures ToForward(c, q + [p]) == if Forwards(c, p) then ToForward(c, q) + [p] else ToForward(c, q)
  {
    assert (q + [p])[..|q + [p]| - 1] == q;
    assert ToForward(c, q) + [] == ToForward(c, q);
    hide Forwards;
  }

  /** Written, in the output thread's hands, and in the output queue, oldest first. */
  function Leaving(s: State): seq<nat> {
    s.written + s.outSlot + s.out
  }

  /** A fast path's packets on their way out, oldest first. */
  function LeavingLane(c: Config, s: State, j: nat): seq<nat>
    requires Shape(c, s) && j < c.FastPaths()
  {
    Select(c, Leaving(s), j) + s.emitting[j]
  }

  /** They are the forwarded ones of what the fast path has processed. */
  predicate LeavesInOrder(c: Config, s: State, j: nat)
    requires Shape(c, s) && j < c.FastPaths()
  {
    LeavingLane(c, s, j) == ToForward(c, s.processed[j])
  }

  /** What a fast path is emitting is bound for it. */
  lemma EmitsOwn(c: Config, s: State, j: nat)
    requires Safe(c, s) && VerdictsKept(c, s) && j < c.FastPaths() && s.emitting[j] != []
    ensures |s.emitting[j]| == 1 && s.emitting[j][0] < |c.packets| && FastPath(c, s.emitting[j][0]) == j
  {
    assert EmitsLast(c, s.emitting[j], s.fpSlot[j], s.processed[j]);
    assert ForFastPath(c, j, s.processed[j]);
  }

  lemma EmitFrame(c: Config, s: State, k: nat, t: State)
    requires SafeStep(c, s, FpEmit(k), t)
    ensures k < c.FastPaths() && s.emitting[k] != []
    ensures t.emitting == s.emitting[k := []] && Leaving(t) == Leaving(s) + s.emitting[k] && t.processed == s.processed
  {
    FpEmitSafe(c, s, k);
    hide Ordered, Routed, Bounded;
    assert s.written + s.outSlot + (s.out + s.emitting[k]) == s.written + s.outSlot + s.out + s.emitting[k];
  }

  /** The packet emitted moves to the end of what leaves, in its own lane. */
  lemma LeavingGrows(c: Config, q: seq<nat>, p: nat, j: nat)
    requires c.Valid() && p < |c.packets|
    ensures Select(c, q + [p], j) == if FastPath(c, p) == j then Select(c, q, j) + [p] else Select(c, q, j)
  {
    SelectConcat(c, q, [p], j);
    SelectOne(c, p, j);
    hide Select, FastPath;
  }

  lemma EmitMovesLane(c: Config, s: State, k: nat, t: State, j: nat)
    requires Shape(c, s) && Shape(c, t) && j < c.FastPaths() && k < c.FastPaths()
    requires |s.emitting[k]| == 1 && s.emitting[k][0] < |c.packets| && FastPath(c, s.emitting[k][0]) == k
    requires t.emitting == s.emitting[k := []] && Leaving(t) == Leaving(s) + s.emitting[k]
    ensures LeavingLane(c, t, j) == LeavingLane(c, s, j)
  {
    hide Select, Leaving, FastPath;
    var p := s.emitting[k][0];
    assert s.emitting[k] == [p];
    LeavingGrows(c, Leaving(s), p, j);
  }

  lemma EmitLeavesInOrder(c: Config, s: State, k: nat, t: State, j: nat)
    requires SafeStep(c, s, FpEmit(k), t) && VerdictsKept(c, s) && j < c.FastPaths() && LeavesInOrder(c, s, j)
    ensures LeavesInOrder(c, t, j)
  {
    hide Safe, VerdictsKept, SafeStep, LeavingLane, ToForward, Leaving, FastPath;
    EmitFrame(c, s, k, t);
    EmitsOwn(c, s, k);
    EmitMovesLane(c, s, k, t, j);
  }

  lemma ProcessFrame(c: Config, s: State, k: nat, t: State) returns (p: nat)
    requires SafeStep(c, s, FpProcess(k), t) && c.fileOpen
    ensures k < c.FastPaths() && s.emitting[k] == [] && Leaving(t) == Leaving(s)
    ensures t.processed == s.processed[k := s.processed[k] + [p]]
    ensures t.emitting == if Forwards(c, p) then s.emitting[k := [p]] else s.emitting
  {
    hide Safe, Forwards;
    p := s.fpSlot[k][0];
    assert s.fpSlot[k] == [p];
  }

  lemma ProcessLeavesInOrder(c: Config, s: State, k: nat, t: State, j: nat)
    requires SafeStep(c, s, FpProcess(k), t) && c.fileOpen && j < c.FastPaths() && LeavesInOrder(c, s, j)
    ensures LeavesInOrder(c, t, j)
  {
    hide SafeStep, Safe, Select, ToForward, Leaving, Forwards;
    var p := ProcessFrame(c, s, k, t);
    if j == k {
      ToForwardMore(c, s.processed[k], p);
      LaneGrows(c, s, t, j, p);
    } else {
      SameLane(c, s, t, j);
    }
  }

  lemma LaneGrows(c: Config, s: State, t: State, j: nat, p: nat)
    requires Shape(c, s) && Shape(c, t) && j < c.FastPaths() && s.emitting[j] == [] && Leaving(t) == Leaving(s)
    requires t.emitting[j] == if Forwards(c, p) then [p] else []
    ensures LeavingLane(c, t, j) == if Forwards(c, p) then LeavingLane(c, s, j) + [p] else LeavingLane(c, s, j)
  {
    hide Select, Leaving, Forwards;
    assert Select(c, Leaving(s), j) + [] == Select(c, Leaving(s), j);
  }

  lemma SameLane(c: Config, s: State, t: State, j: nat)
    requires Shape(c, s) && Shape(c, t) && j < c.FastPaths() && Leaving(t) == Leaving(s)
    requires t.emitting[j] == s.emitting[j]
    ensures LeavingLane(c, t, j) == LeavingLane(c, s, j)
  {
    hide Select, Leaving;
  }

  lemma OutPopFrame(c: Config, s: State, t: State)
    requires SafeStep(c, s, OutPop, t)
    ensures Leaving(t) == Leaving(s) && t.emitting == s.emitting && t.processed == s.processed
  {
    hide Safe, Shape;
    assert s.out == [s.out[0]] + s.out[1..];
    assert t.written + t.outSlot + t.out == s.written + s.outSlot + s.out;
  }

  lemma OtherFrame(c: Config, s: State, step: Step, t: State)
    requires SafeStep(c, s, step, t) && !step.FpEmit? && !step.FpProcess? && !step.OutPop?
    ensures Leaving(t) == Leaving(s) && t.emitting == s.emitting && t.processed == s.processed
  {
    hide Safe, Shape;
  }

  lemma StepLeavesInOrder(c: Config, s: State, step: Step, t: State, j: nat)
    requires SafeStep(c, s, step, t) && VerdictsKept(c, s) && c.fileOpen && j < c.FastPaths() && LeavesInOrder(c, s, j)
    ensures LeavesInOrder(c, t, j)
  {
    if step.FpEmit? {
      EmitLeavesInOrder(c, s, step.j, t, j);
    } else if step.FpProcess? {
      ProcessLeavesInOrder(c, s, step.j, t, j);
    } else if step.OutPop? {
      OutPopFrame(c, s, t);
    } else {
      OtherFrame(c, s, step, t);
    }
    hide Safe, VerdictsKept, Apply, Enabled, Select, Leaving, ToForward;
  }

  lemma StartLeavesInOrder(c: Config, j: nat)
    requires c.Valid() && j < c.FastPaths()
    ensures Shape(c, Start(c)) && LeavesInOrder(c, Start(c), j)
  {
  }

  /** In every run with a file open, and for every fast path, the output stage keeps the order of processing. */
  lemma OutputInOrder(c: Config, states: seq<State>, steps: seq<Step>, n: nat, j: nat)
    requires IsRun(c, states, steps) && n < |states| && c.fileOpen && j < c.FastPaths()
    ensures Shape(c, states[n])
    ensures Select(c, states[n].written + states[n].outSlot + states[n].out, j) + states[n].emitting[j]
         == ToForward(c, states[n].processed[j])
  {
    RunLeavesInOrder(c, states, steps, n, j);
    hide IsRun, Select, ToForward, Shape;
  }

  lemma {:induction false} RunLeavesInOrder(c: Config, states: seq<State>, steps: seq<Step>, n: nat, j: nat)
    requires IsRun(c, states, steps) && n < |states| && c.fileOpen && j < c.FastPaths()
    ensures Shape(c, states[n]) && LeavesInOrder(c, states[n], j)
  {
    hide Apply, Enabled, StepTo, Shape, Safe, VerdictsKept, LeavesInOrder, Start;
    if n == 0 {
      StartLeavesInOrder(c, j);
    } else {
      AroundStep(c, states, steps, n - 1);
      RunKeepsVerdicts(c, states, steps, n - 1);
      RunLeavesInOrder(c, states, steps, n - 1, j);
      StepLeavesInOrder(c, states[n - 1], steps[n - 1], states[n], j);
    }
  }

  // ---------------------------------------------------------------- flows

  lemma {:induction false} SelectPrefix(c: Config, a: seq<nat>, b: seq<nat>, j: nat)
    requires c.Valid() && a <= b
    ensures Select(c, a, j) <= Select(c, b, j)
  {
    assert b == a + b[|a|..];
    SelectConcat(c, a, b[|a|..], j);
  }

  /** What is written is a prefix of what leaves; lane by lane, of what was processed and forwarded. */
  lemma WrittenInOrder(c: Config, states: seq<State>, steps: seq<Step>, n: nat, j: nat)
    requires IsRun(c, states, steps) && n < |states| && c.fileOpen && j < c.FastPaths()
    ensures Shape(c, states[n])
    ensures Select(c, states[n].written, j) <= ToForward(c, states[n].processed[j])
  {
    var s := states[n];
    OutputInOrder(c, states, steps, n, j);
    assert s.written <= s.written + s.outSlot + s.out;
    SelectPrefix(c, s.written, s.written + s.outSlot + s.out, j);
    hide IsRun, Select, ToForward, Shape;
  }

  lemma {:induction false} WrittenInRange(c: Config, states: seq<State>, steps: seq<Step>, n: nat)
    requires IsRun(c, states, steps) && n < |states| && c.fileOpen
    ensures forall k :: 0 <= k < |states[n].written| ==>
              states[n].written[k] < |c.packets| && c.packets[states[n].written[k]].parses
  {
    var s := states[n];
    forall k | 0 <= k < |s.written|
      ensures s.written[k] < |c.packets| && c.packets[s.written[k]].parses
    {
      WrittenWasForwarded(c, states, steps, n, s.written[k]);
    }
  }

  lemma WrittenWasForwarded(c: Config, states: seq<State>, steps: seq<Step>, n: nat, p: nat)
    requires IsRun(c, states, steps) && n < |states| && c.fileOpen && p in states[n].written
    ensures p < |c.packets| && c.packets[p].parses
  {
    var s := states[n];
    RunSafe(c, states, steps, n);
    RunKeepsVerdicts(c, states, steps, n);
    ForwardedIsAccounted(c, states, steps, n, p);
    if p >= |c.packets| || !c.packets[p].parses { TotalAbsent(s.processed, p); }
  }

  /** The packets of one flow are written in the order its fast path processed them. */
  lemma FlowsWrittenInOrder(c: Config, ids: seq<Identity>, hash: FiveTuple -> nat, states: seq<State>,
                            steps: seq<Step>, n: nat, p: nat)
    requires IsRun(c, states, steps) && n < |states| && c.fileOpen && Hashed(c, ids, hash)
    requires p < |ids| && c.packets[p].parses
    ensures Shape(c, states[n])
    ensures OfFlow(ids, ids[p].key.Canonical(), states[n].written)
         <= OfFlow(ids, ids[p].key.Canonical(), ToForward(c, states[n].processed[FastPath(c, p)]))
  {
    var s, j, key := states[n], FastPath(c, p), ids[p].key.Canonical();
    WrittenInOrder(c, states, steps, n, j);
    WrittenInRange(c, states, steps, n);
    OfFlowPrefix(ids, key, Select(c, s.written, j), ToForward(c, s.processed[j]));
    forall i | 0 <= i < |s.written| && ids[s.written[i]].key.Canonical() == key
      ensures FastPath(c, s.written[i]) == j
    {
      FlowHasOneFastPath(c, ids, hash, s.written[i], p);
    }
    OfFlowSelect(c, ids, key, s.written, j);
  }

  lemma {:induction false} ToForwardIncreasing(c: Config, q: seq<nat>, bound: nat)
    requires Increasing(q) && forall a :: 0 <= a < |q| ==> q[a] < bound
    ensures Increasing(ToForward(c, q)) && forall a :: 0 <= a < |ToForward(c, q)| ==> ToForward(c, q)[a] < bound
  {
    if q != [] {
      var last := q[|q| - 1];
      ToForwardIncreasing(c, q[..|q| - 1], last);
      IncreasingSnoc(ToForward(c, q[..|q| - 1]), last);
    }
  }

  /** With one parser the packets of every fast path are written in the order the reader read them. */
  lemma OneParserWritesInReaderOrder(c: Config, states: seq<State>, steps: seq<Step>, n: nat, j: nat)
    requires IsRun(c, states, steps) && n < |states| && c.fileOpen && c.parsers == 1 && j < c.FastPaths()
    ensures c.Valid() && Increasing(Select(c, states[n].written, j))
  {
    WrittenInOrder(c, states, steps, n, j);
    OneParserKeepsReaderOrder(c, states, steps, n, j);
    RunSafe(c, states, steps, n);
    var s := states[n];
    assert ForFastPath(c, j, s.processed[j]);
    ToForwardIncreasing(c, s.processed[j], |c.packets|);
    var a, b := Select(c, s.written, j), ToForward(c, s.processed[j]);
    assert forall i :: 0 <= i < |a| ==> a[i] == b[i];
  }
}
