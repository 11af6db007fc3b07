/**
 Flow ownership over whole runs: one flow, one fast path, in order. Each fast path processes its packets in
 exactly the order they entered its balancer's queue, and with one parser that is the reader's order.
 */
module PipelineOwnership {
  import opened Flows
  import opened Divisibility
  import opened Routing
  import opened Pipeline
  import opened PipelineSafety

  /** The balancer whose pool contains fast path j. */
  function Owner(c: Config, j: nat): (l: nat)
    requires c.Valid() && j < c.FastPaths()
    ensures l < c.balancers
  {
    var l := j / c.fpsPerBalancer;
    OwnerInRange(j, c.balancers, c.fpsPerBalancer);
    l
  }

  lemma OwnerInRange(j: nat, lbs: nat, fps: nat)
    requires fps > 0 && j < lbs * fps
    ensures j / fps < lbs
  {
    assert j == fps * (j / fps) + j % fps;
    if lbs <= j / fps { MulMonotone(lbs, j / fps, fps); }
  }

  lemma OwnerIsBalancer(c: Config, p: nat)
    requires c.Valid() && p < |c.packets|
    ensures Owner(c, FastPath(c, p)) == Balancer(c, p)
  {
    LandsInOwnPool(c.packets[p].hash, c.balancers, c.fpsPerBalancer);
  }

  /** The packets of q bound for fast path j, in order. */
  function Select(c: Config, q: seq<nat>, j: nat): seq<nat>
    requires c.Valid()
  {
    if q == [] then []
    else
      var last := q[|q| - 1];
      Select(c, q[..|q| - 1], j) + if last < |c.packets| && FastPath(c, last) == j then [last] else []
  }

  lemma {:induction false} SelectConcat(c: Config, a: seq<nat>, b: seq<nat>, j: nat)
    requires c.Valid()
    ensures Select(c, a + b, j) == Select(c, a, j) + Select(c, b, j)
  {
    if b == [] {
      assert a + b == a;
    } else {
      SelectConcat(c, a, b[..|b| - 1], j);
      assert (a + b)[..|a + b| - 1] == a + b[..|b| - 1];
    }
  }

  lemma SelectOne(c: Config, p: nat, j: nat)
    requires c.Valid() && p < |c.packets|
    ensures Select(c, [p], j) == if FastPath(c, p) == j then [p] else []
  {
    assert [p][..0] == [];
  }

  /** What fast path j has processed, holds and is still to receive, in order. */
  function Lane(c: Config, s: State, j: nat): seq<nat>
    requires Shape(c, s) && j < c.FastPaths()
  {
    var l := Owner(c, j);
    s.processed[j] + s.fpSlot[j] + s.fpQueue[j] + Select(c, s.lbSlot[l], j) + Select(c, s.lbQueue[l], j)
  }

  /** Lanes are first in, first out: they are what entered the balancer's queue for that fast path, in order. */
  ghost predicate InOrder(c: Config, s: State)
    requires Shape(c, s)
  {
    forall j :: 0 <= j < c.FastPaths() ==> Lane(c, s, j) == Select(c, s.lbLog[Owner(c, j)], j)
  }

  lemma ParserPushInOrder(c: Config, s: State, i: nat)
    requires Safe(c, s) && Enabled(c, s, ParserPush(i)) && InOrder(c, s)
    requires Shape(c, Apply(c, s, ParserPush(i)))
    ensures InOrder(c, Apply(c, s, ParserPush(i)))
  {
    ParserPushMeetsOpenQueue(c, s, i);
    var t := Apply(c, s, ParserPush(i));
    var l := Balancer(c, s.parserSlot[i][0]);
    forall j | 0 <= j < c.FastPaths()
      ensures Lane(c, t, j) == Select(c, t.lbLog[Owner(c, j)], j)
    {
      assert Lane(c, s, j) == Select(c, s.lbLog[Owner(c, j)], j);
      if Owner(c, j) == l {
        SelectConcat(c, s.lbQueue[l], s.parserSlot[i], j);
        SelectConcat(c, s.lbLog[l], s.parserSlot[i], j);
        var front := s.processed[j] + s.fpSlot[j] + s.fpQueue[j] + Select(c, s.lbSlot[l], j);
        assert front + (Select(c, s.lbQueue[l], j) + Select(c, s.parserSlot[i], j))
            == front + Select(c, s.lbQueue[l], j) + Select(c, s.parserSlot[i], j);
      }
    }
  }

  lemma LbPopLane(c: Config, s: State, l: nat, j: nat)
    requires Shape(c, s) && Enabled(c, s, LbPop(l)) && j < c.FastPaths()
    requires Shape(c, Apply(c, s, LbPop(l)))
    ensures Lane(c, Apply(c, s, LbPop(l)), j) == Lane(c, s, j)
  {
    if Owner(c, j) == l {
      var q := s.lbQueue[l];
      assert q == [q[0]] + q[1..];
      SelectConcat(c, [q[0]], q[1..], j);
      assert Select(c, s.lbSlot[l], j) == [];
    }
  }

  lemma LbPushLane(c: Config, s: State, l: nat, j: nat)
    requires Shape(c, s) && Enabled(c, s, LbPush(l)) && j < c.FastPaths()
    requires !FpShut(c, s, PoolTarget(c, l, s.lbSlot[l][0])) && Balancer(c, s.lbSlot[l][0]) == l
    requires Shape(c, Apply(c, s, LbPush(l)))
    ensures Lane(c, Apply(c, s, LbPush(l)), j) == Lane(c, s, j)
  {
    var p := s.lbSlot[l][0];
    OwnerIsBalancer(c, p);
    hide Owner, FpShut, Select, Balancer;
    if Owner(c, j) == l {
      assert s.lbSlot[l] == [p];
      SelectOne(c, p, j);
      NoneSelected(c, j);
    }
  }

  lemma NoneSelected(c: Config, j: nat)
    requires c.Valid()
    ensures Select(c, [], j) == []
  {
  }

  lemma FpPopLane(c: Config, s: State, k: nat, j: nat)
    requires Shape(c, s) && Enabled(c, s, FpPop(k)) && j < c.FastPaths()
    requires Shape(c, Apply(c, s, FpPop(k)))
    ensures Lane(c, Apply(c, s, FpPop(k)), j) == Lane(c, s, j)
  {
    if j == k {
      var q := s.fpQueue[j];
      assert s.fpSlot[j] + q == [q[0]] + q[1..];
      assert s.processed[j] + s.fpSlot[j] + q == s.processed[j] + [q[0]] + q[1..];
    }
  }

  lemma FpProcessLane(c: Config, s: State, k: nat, j: nat)
    requires Shape(c, s) && Enabled(c, s, FpProcess(k)) && j < c.FastPaths()
    requires Shape(c, Apply(c, s, FpProcess(k)))
    ensures Lane(c, Apply(c, s, FpProcess(k)), j) == Lane(c, s, j)
  {
    hide Apply, Select;
    FpProcessFrame(c, s, k);
    if j == k {
      assert s.processed[j] + s.fpSlot[j] + [] == s.processed[j] + s.fpSlot[j];
    }
  }

  lemma OtherLane(c: Config, s: State, step: Step, j: nat)
    requires Shape(c, s) && Enabled(c, s, step) && j < c.FastPaths()
    requires !step.ParserPush? && !step.LbPop? && !step.LbPush? && !step.FpPop? && !step.FpProcess?
    requires Shape(c, Apply(c, s, step))
    ensures Lane(c, Apply(c, s, step), j) == Lane(c, s, j)
  {
  }

  lemma StepInOrder(c: Config, s: State, step: Step, t: State)
    requires SafeStep(c, s, step, t) && InOrder(c, s)
    ensures InOrder(c, t)
  {
    if step.ParserPush? {
      ParserPushInOrder(c, s, step.i);
    } else {
      LogsOnlyGrowByPushes(c, s, step);
      forall j | 0 <= j < c.FastPaths()
        ensures Lane(c, t, j) == Lane(c, s, j)
      {
        StepKeepsLane(c, s, step, t, j);
      }
    }
    hide Apply, Enabled, Lane, Safe;
  }

  lemma LogsOnlyGrowByPushes(c: Config, s: State, step: Step)
    requires Shape(c, s) && Enabled(c, s, step) && !step.ParserPush?
    ensures Apply(c, s, step).lbLog == s.lbLog
  {
  }

  /** No step but a parser's push changes a lane. */
  lemma StepKeepsLane(c: Config, s: State, step: Step, t: State, j: nat)
    requires SafeStep(c, s, step, t) && !step.ParserPush? && j < c.FastPaths()
    ensures Lane(c, t, j) == Lane(c, s, j)
  {
    hide Lane, Routed, Bounded;
    if step.LbPush? {
      BalancedSlot(c, s, step.l);
      LbPushMeetsOpenQueue(c, s, step.l);
      PoolTargetInRange(c, step.l, s.lbSlot[step.l][0]);
      LbPushLane(c, s, step.l, j);
    } else if step.LbPop? {
      LbPopLane(c, s, step.l, j);
    } else if step.FpPop? {
      FpPopLane(c, s, step.j, j);
    } else if step.FpProcess? {
      FpProcessLane(c, s, step.j, j);
    } else {
      OtherLane(c, s, step, j);
    }
  }

  lemma BalancedSlot(c: Config, s: State, l: nat)
    requires Safe(c, s) && l < c.balancers && s.lbSlot[l] != []
    ensures Balancer(c, s.lbSlot[l][0]) == l
  {
    assert ForBalancer(c, l, s.lbSlot[l]);
  }

  /** A step of a run: safe before, and of the right shape after. */
  ghost predicate SafeStep(c: Config, s: State, step: Step, t: State)
    ensures SafeStep(c, s, step, t) ==> Safe(c, s) && StepTo(c, s, step, t) && Shape(c, t)
  {
    var holds := Safe(c, s) && StepTo(c, s, step, t) && Shape(c, t);
    holds
  }

  lemma AroundStep(c: Config, states: seq<State>, steps: seq<Step>, k: nat)
    requires IsRun(c, states, steps) && k < |steps|
    ensures SafeStep(c, states[k], steps[k], states[k + 1])
  {
    RunSafe(c, states, steps, k);
    RunSafe(c, states, steps, k + 1);
    assert StepTo(c, states[k], steps[k], states[k + 1]);
  }

  lemma StartInOrder(c: Config)
    requires c.Valid() && Shape(c, Start(c))
    ensures InOrder(c, Start(c))
  {
  }

  lemma {:induction false} RunInOrder(c: Config, states: seq<State>, steps: seq<Step>, n: nat)
    requires IsRun(c, states, steps) && n < |states|
    ensures Shape(c, states[n]) && InOrder(c, states[n])
  {
    hide Enabled, Apply, StepTo, Shape, Safe, InOrder;
    if n == 0 {
      StartSafe(c);
      StartInOrder(c);
    } else {
      AroundStep(c, states, steps, n - 1);
      RunInOrder(c, states, steps, n - 1);
      StepInOrder(c, states[n - 1], steps[n - 1], states[n]);
    }
  }

  /** A fast path has processed, at any moment, a prefix of what entered its balancer's queue for it: no overtaking. */
  lemma ProcessedInArrivalOrder(c: Config, states: seq<State>, steps: seq<Step>, n: nat, j: nat)
    requires IsRun(c, states, steps) && n < |states| && j < c.FastPaths()
    ensures Shape(c, states[n]) && states[n].processed[j] <= Select(c, states[n].lbLog[Owner(c, j)], j)
  {
    RunInOrder(c, states, steps, n);
    assert states[n].processed[j] <= Lane(c, states[n], j);
  }

  // ---------------------------------------------------------------- flows

  /** Identities of the packets that parse; their hashes are one function of the canonical five-tuple. */
  ghost predicate Hashed(c: Config, ids: seq<Identity>, hash: FiveTuple -> nat) {
    && |ids| == |c.packets|
    && forall p :: 0 <= p < |ids| && c.packets[p].parses ==>
         FromPacket(ids[p]) && c.packets[p].hash == hash(ids[p].tuple.Canonical())
  }

  lemma FlowHasOneFastPath(c: Config, ids: seq<Identity>, hash: FiveTuple -> nat, p: nat, q: nat)
    requires c.Valid() && Hashed(c, ids, hash) && p < |ids| && q < |ids|
    requires c.packets[p].parses && c.packets[q].parses && ids[p].key.Canonical() == ids[q].key.Canonical()
    ensures FastPath(c, p) == FastPath(c, q) && Balancer(c, p) == Balancer(c, q)
  {
    SameFlowSameTuple(ids[p], ids[q]);
  }

  /** Trackers of different fast paths never share a flow: their canonical key sets are disjoint in every run. */
  lemma TrackersAreDisjoint(c: Config, ids: seq<Identity>, hash: FiveTuple -> nat, states: seq<State>, steps: seq<Step>,
                            n: nat, j: nat, k: nat, p: nat, q: nat)
    requires IsRun(c, states, steps) && n < |states| && Hashed(c, ids, hash)
    requires j < c.FastPaths() && k < c.FastPaths() && |states[n].processed| == c.FastPaths()
    requires p in states[n].processed[j] && q in states[n].processed[k] && p < |ids| && q < |ids|
    requires ids[p].key.Canonical() == ids[q].key.Canonical()
    ensures j == k
  {
    RunSafe(c, states, steps, n);
    assert ForFastPath(c, j, states[n].processed[j]) && ForFastPath(c, k, states[n].processed[k]);
    FlowHasOneFastPath(c, ids, hash, p, q);
  }

  /** The packets of one flow in q, in order. */
  function OfFlow(ids: seq<Identity>, key: FlowKey, q: seq<nat>): seq<nat> {
    if q == [] then []
    else
      var last := q[|q| - 1];
      OfFlow(ids, key, q[..|q| - 1]) + if last < |ids| && ids[last].key.Canonical() == key then [last] else []
  }

  lemma {:induction false} OfFlowPrefix(ids: seq<Identity>, key: FlowKey, a: seq<nat>, b: seq<nat>)
    requires a <= b
    ensures OfFlow(ids, key, a) <= OfFlow(ids, key, b)
  {
    if |a| < |b| {
      OfFlowPrefix(ids, key, a, b[..|b| - 1]);
    } else {
      assert a == b;
    }
  }

  /** Picking the packets bound for the flow's fast path loses none of the flow's packets. */
  lemma {:induction false} OfFlowSelect(c: Config, ids: seq<Identity>, key: FlowKey, q: seq<nat>, j: nat)
    requires c.Valid() && |ids| == |c.packets|
    requires forall i :: 0 <= i < |q| ==> q[i] < |ids| && (ids[q[i]].key.Canonical() == key ==> FastPath(c, q[i]) == j)
    ensures OfFlow(ids, key, Select(c, q, j)) == OfFlow(ids, key, q)
  {
    if q != [] {
      var front, last := q[..|q| - 1], q[|q| - 1];
      OfFlowSelect(c, ids, key, front, j);
      if FastPath(c, last) == j {
        assert (Select(c, front, j) + [last])[..|Select(c, front, j)|] == Select(c, front, j);
      } else {
        assert Select(c, front, j) + [] == Select(c, front, j);
      }
    }
  }

  /** Each flow is processed, by its one fast path, in the order it entered its balancer's queue. */
  lemma FlowsProcessedInOrder(c: Config, ids: seq<Identity>, hash: FiveTuple -> nat, states: seq<State>,
                              steps: seq<Step>,
                              n: nat, p: nat)
    requires IsRun(c, states, steps) && n < |states| && Hashed(c, ids, hash)
    requires p < |ids| && c.packets[p].parses
    ensures Shape(c, states[n])
    ensures OfFlow(ids, ids[p].key.Canonical(), states[n].processed[FastPath(c, p)])
         <= OfFlow(ids, ids[p].key.Canonical(), states[n].lbLog[Balancer(c, p)])
  {
    var s, j, l, key := states[n], FastPath(c, p), Balancer(c, p), ids[p].key.Canonical();
    ProcessedInArrivalOrder(c, states, steps, n, j);
    RunSafe(c, states, steps, n);
    OwnerIsBalancer(c, p);
    OfFlowPrefix(ids, key, s.processed[j], Select(c, s.lbLog[l], j));
    assert ForBalancer(c, l, s.lbLog[l]);
    forall i | 0 <= i < |s.lbLog[l]| && ids[s.lbLog[l][i]].key.Canonical() == key
      ensures FastPath(c, s.lbLog[l][i]) == j
    {
      FlowHasOneFastPath(c, ids, hash, s.lbLog[l][i], p);
    }
    OfFlowSelect(c, ids, key, s.lbLog[l], j);
  }

  // ---------------------------------------------------------------- one parser

  /** Of the first k packets of the input, those that parse and belong to balancer l, in reader order. */
  function Accepted(c: Config, l: nat, k: nat): seq<nat>
    requires c.Valid() && k <= |c.packets|
  {
    if k == 0 then []
    else Accepted(c, l, k - 1) + if c.packets[k - 1].parses && Balancer(c, k - 1) == l then [k - 1] else []
  }

  /** With one parser the unread part of the pipeline's front is contiguous, and the logs follow the reader. */
  ghost predicate ReaderOrder(c: Config, s: State)
    requires Shape(c, s) && c.parsers == 1
  {
    var front := s.parserSlot[0] + s.raw;
    && |front| <= s.next
    && (forall i :: 0 <= i < |front| ==> front[i] == s.next - |front| + i)
    && (forall l :: 0 <= l < c.balancers ==> s.lbLog[l] == Accepted(c, l, s.next - |front|))
  }

  lemma ParserPopOrder(c: Config, s: State)
    requires Shape(c, s) && Enabled(c, s, ParserPop(0)) && c.parsers == 1 && ReaderOrder(c, s)
    requires Shape(c, Apply(c, s, ParserPop(0)))
    ensures ReaderOrder(c, Apply(c, s, ParserPop(0)))
  {
    var t := Apply(c, s, ParserPop(0));
    assert t.parserSlot[0] + t.raw == s.parserSlot[0] + s.raw;
  }

  /** The packet the parser holds is the first one not yet accounted for in the logs. */
  lemma ParserHoldsFirst(c: Config, s: State)
    requires Shape(c, s) && c.parsers == 1 && ReaderOrder(c, s) && s.parserSlot[0] != []
    ensures var front := s.parserSlot[0] + s.raw;
            s.parserSlot[0] == [s.next - |front|] && [] + s.raw == front[1..] && s.next - |front| < |c.packets|
  {
    assert (s.parserSlot[0] + s.raw)[0] == s.parserSlot[0][0];
  }

  lemma ParserRejectOrder(c: Config, s: State)
    requires Shape(c, s) && c.parsers == 1 && ReaderOrder(c, s) && Enabled(c, s, ParserReject(0))
    requires Shape(c, Apply(c, s, ParserReject(0)))
    ensures ReaderOrder(c, Apply(c, s, ParserReject(0)))
  {
    ParserHoldsFirst(c, s);
  }

  lemma ParserPushOrder(c: Config, s: State)
    requires Shape(c, s) && c.parsers == 1 && ReaderOrder(c, s) && Enabled(c, s, ParserPush(0))
    requires !LbShut(c, s, Balancer(c, s.parserSlot[0][0]))
    requires Shape(c, Apply(c, s, ParserPush(0)))
    ensures ReaderOrder(c, Apply(c, s, ParserPush(0)))
  {
    ParserHoldsFirst(c, s);
  }

  lemma ReaderPushOrder(c: Config, s: State)
    requires Safe(c, s) && Enabled(c, s, ReaderPush) && c.parsers == 1 && ReaderOrder(c, s)
    requires Shape(c, Apply(c, s, ReaderPush))
    ensures ReaderOrder(c, Apply(c, s, ReaderPush))
  {
    var t := Apply(c, s, ReaderPush);
    assert s.pc == 0;
    assert t.parserSlot[0] + t.raw == s.parserSlot[0] + s.raw + [s.next];
  }

  lemma OtherReaderOrder(c: Config, s: State, step: Step)
    requires Shape(c, s) && Enabled(c, s, step)
    requires !step.ReaderPush? && !step.ParserPop? && !step.ParserReject? && !step.ParserPush?
    ensures var t := Apply(c, s, step);
            t.parserSlot == s.parserSlot && t.raw == s.raw && t.next == s.next && t.lbLog == s.lbLog
  {
    if step.LbPop? || step.LbPush? || step.FpPop? || step.FpProcess? || step.FpEmit? {
      MovesKeepReader(c, s, step);
    } else {
      hide Enabled, Shape;
    }
  }

  lemma MovesKeepReader(c: Config, s: State, step: Step)
    requires Shape(c, s) && Enabled(c, s, step)
    requires step.LbPop? || step.LbPush? || step.FpPop? || step.FpProcess? || step.FpEmit?
    ensures var t := Apply(c, s, step);
            t.parserSlot == s.parserSlot && t.raw == s.raw && t.next == s.next && t.lbLog == s.lbLog
  {
  }

  lemma StepReaderOrder(c: Config, s: State, step: Step, t: State)
    requires SafeStep(c, s, step, t) && c.parsers == 1 && ReaderOrder(c, s)
    ensures ReaderOrder(c, t)
  {
    if step.ParserPop? || step.ParserReject? || step.ParserPush? {
      ParserStepOrder(c, s, step, t);
    } else if step.ReaderPush? {
      ReaderPushOrder(c, s);
    } else {
      OtherReaderOrder(c, s, step);
      hide Apply, Enabled, Safe;
    }
  }

  lemma ParserStepOrder(c: Config, s: State, step: Step, t: State)
    requires SafeStep(c, s, step, t) && c.parsers == 1 && ReaderOrder(c, s)
    requires step.ParserPop? || step.ParserReject? || step.ParserPush?
    ensures ReaderOrder(c, t)
  {
    assert step.i == 0;
    if step.ParserPop? {
      ParserPopOrder(c, s);
    } else if step.ParserReject? {
      ParserRejectOrder(c, s);
    } else {
      ParserPushMeetsOpenQueue(c, s, 0);
      ParserPushOrder(c, s);
    }
    hide ReaderOrder;
  }

  lemma StartReaderOrder(c: Config)
    requires c.Valid() && c.parsers == 1 && Shape(c, Start(c))
    ensures ReaderOrder(c, Start(c))
  {
  }

  lemma {:induction false} RunReaderOrder(c: Config, states: seq<State>, steps: seq<Step>, n: nat)
    requires IsRun(c, states, steps) && n < |states| && c.parsers == 1
    ensures Shape(c, states[n]) && ReaderOrder(c, states[n])
  {
    hide Enabled, Apply, StepTo, Shape, Safe, ReaderOrder;
    if n == 0 {
      StartSafe(c);
      StartReaderOrder(c);
    } else {
      AroundStep(c, states, steps, n - 1);
      RunReaderOrder(c, states, steps, n - 1);
      StepReaderOrder(c, states[n - 1], steps[n - 1], states[n]);
    }
  }

  predicate Increasing(q: seq<nat>) {
    forall a, b :: 0 <= a < b < |q| ==> q[a] < q[b]
  }

  lemma IncreasingSnoc(q: seq<nat>, x: nat)
    requires Increasing(q) && forall a :: 0 <= a < |q| ==> q[a] < x
    ensures Increasing(q + [x])
  {
  }

  lemma {:induction false} AcceptedIncreasing(c: Config, l: nat, k: nat)
    requires c.Valid() && k <= |c.packets|
    ensures Increasing(Accepted(c, l, k)) && forall a :: 0 <= a < |Accepted(c, l, k)| ==> Accepted(c, l, k)[a] < k
  {
    if k > 0 {
      AcceptedIncreasing(c, l, k - 1);
      IncreasingSnoc(Accepted(c, l, k - 1), k - 1);
    }
  }

  lemma {:induction false} SelectIncreasing(c: Config, q: seq<nat>, j: nat, bound: nat)
    requires c.Valid() && Increasing(q) && forall a :: 0 <= a < |q| ==> q[a] < bound
    ensures Increasing(Select(c, q, j)) && forall a :: 0 <= a < |Select(c, q, j)| ==> Select(c, q, j)[a] < bound
  {
    if q != [] {
      var last := q[|q| - 1];
      SelectIncreasing(c, q[..|q| - 1], j, last);
      IncreasingSnoc(Select(c, q[..|q| - 1], j), last);
    }
  }

  /** With one parser every fast path processes its packets in the order the reader read them. */
  lemma OneParserKeepsReaderOrder(c: Config, states: seq<State>, steps: seq<Step>, n: nat, j: nat)
    requires IsRun(c, states, steps) && n < |states| && c.parsers == 1 && j < c.FastPaths()
    ensures Shape(c, states[n]) && Increasing(states[n].processed[j])
  {
    RunReaderOrder(c, states, steps, n);
    ProcessedInArrivalOrder(c, states, steps, n, j);
    var s, l := states[n], Owner(c, j);
    var k := s.next - |s.parserSlot[0] + s.raw|;
    AcceptedIncreasing(c, l, k);
    SelectIncreasing(c, s.lbLog[l], j, k);
    var q := Select(c, s.lbLog[l], j);
    assert forall a :: 0 <= a < |s.processed[j]| ==> s.processed[j][a] == q[a];
  }
}
