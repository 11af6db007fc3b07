/** Whole-run safety of the pipeline: ordered shutdown, routing, and the conservation of packets. */
module PipelineSafety {
  import opened Routing
  import opened Pipeline

  // ---------------------------------------------------------------- ordered shutdown

  /** A worker has left only after it was told to, and never with work behind it. */
  predicate ParsersOrdered(c: Config, s: State)
    requires Shape(c, s)
  {
    && (s.pc > 0 ==> s.readerDone)
    && (s.readerDone ==> s.next == |c.packets|)
    && (forall i :: 0 <= i < c.parsers && s.parserExited[i] ==>
          s.pc > c.ParserStopAt(i) && s.raw == [] && s.parserSlot[i] == [])
    && (forall i :: 0 <= i < c.parsers && s.pc > c.ParserJoinAt(i) ==> s.parserExited[i])
  }

  predicate BalancersOrdered(c: Config, s: State)
    requires Shape(c, s)
  {
    && (forall l :: 0 <= l < c.balancers && s.lbExited[l] ==>
          s.pc > c.LbStopAt(l) && s.lbQueue[l] == [] && s.lbSlot[l] == [])
    && (forall l :: 0 <= l < c.balancers && s.pc > c.LbJoinAt(l) ==> s.lbExited[l])
  }

  predicate FastPathsOrdered(c: Config, s: State)
    requires Shape(c, s)
  {
    && (forall j :: 0 <= j < c.FastPaths() && s.fpExited[j] ==>
          s.pc > c.FpStopAt(j) && s.fpQueue[j] == [] && s.fpSlot[j] == [] && s.emitting[j] == [])
    && (forall j :: 0 <= j < c.FastPaths() && s.pc > c.FpJoinAt(j) ==> s.fpExited[j])
  }

  predicate OutputOrdered(c: Config, s: State) {
    && (s.outExited ==> s.pc > c.EngineStopAt() && s.outSlot == [])
    && (s.pc > c.OutJoinAt() ==> s.outExited)
    && (!c.fileOpen ==> s.out == [] && s.outSlot == [] && forall j :: 0 <= j < |s.emitting| ==> s.emitting[j] == [])
  }

  predicate Ordered(c: Config, s: State)
    requires Shape(c, s)
  {
    ParsersOrdered(c, s) && BalancersOrdered(c, s) && FastPathsOrdered(c, s) && OutputOrdered(c, s) && s.refused == []
  }

  // ---------------------------------------------------------------- where packets may be

  /** Packets in a balancer's queue parsed and belong to it. */
  predicate ForBalancer(c: Config, l: nat, q: seq<nat>)
    requires c.Valid()
  {
    forall k :: 0 <= k < |q| ==> q[k] < |c.packets| && c.packets[q[k]].parses && Balancer(c, q[k]) == l
  }

  predicate ForFastPath(c: Config, j: nat, q: seq<nat>)
    requires c.Valid()
  {
    forall k :: 0 <= k < |q| ==> q[k] < |c.packets| && c.packets[q[k]].parses && FastPath(c, q[k]) == j
  }

  predicate Unparsed(c: Config, q: seq<nat>) {
    forall k :: 0 <= k < |q| ==> q[k] < |c.packets| && !c.packets[q[k]].parses
  }

  predicate Routed(c: Config, s: State)
    requires Shape(c, s)
  {
    && (forall k :: 0 <= k < |s.raw| ==> s.raw[k] < |c.packets|)
    && Unparsed(c, s.errors)
    && (forall l :: 0 <= l < c.balancers ==>
          ForBalancer(c, l, s.lbQueue[l]) && ForBalancer(c, l, s.lbSlot[l]) && ForBalancer(c, l, s.lbLog[l]))
    && (forall j :: 0 <= j < c.FastPaths() ==>
          ForFastPath(c, j, s.fpQueue[j]) && ForFastPath(c, j, s.fpSlot[j]) && ForFastPath(c, j, s.processed[j]))
  }

  /** No queue ever exceeds its capacity. */
  predicate Bounded(c: Config, s: State)
    requires Shape(c, s)
  {
    && |s.raw| <= c.rawCapacity
    && (forall l :: 0 <= l < c.balancers ==> |s.lbQueue[l]| <= c.lbCapacity)
    && (forall j :: 0 <= j < c.FastPaths() ==> |s.fpQueue[j]| <= c.fpCapacity)
    && |s.out| <= c.outCapacity
  }

  predicate Safe(c: Config, s: State) {
    Shape(c, s) && Ordered(c, s) && Routed(c, s) && Bounded(c, s)
  }

  lemma StartSafe(c: Config)
    requires c.Valid()
    ensures Safe(c, Start(c))
  {
  }

  lemma ReaderPushSafe(c: Config, s: State)
    requires Safe(c, s) && Enabled(c, s, ReaderPush)
    ensures Safe(c, Apply(c, s, ReaderPush))
  {
  }

  lemma ReaderExitSafe(c: Config, s: State)
    requires Safe(c, s) && Enabled(c, s, ReaderExit)
    ensures Safe(c, Apply(c, s, ReaderExit))
  {
  }

  lemma ParserPopSafe(c: Config, s: State, i: nat)
    requires Safe(c, s) && Enabled(c, s, ParserPop(i))
    ensures Safe(c, Apply(c, s, ParserPop(i)))
  {
  }

  lemma ParserRejectSafe(c: Config, s: State, i: nat)
    requires Safe(c, s) && Enabled(c, s, ParserReject(i))
    ensures Safe(c, Apply(c, s, ParserReject(i)))
  {
  }

  /** No parser still holding a packet can meet a shut-down balancer: its own join comes first. */
  lemma ParserPushMeetsOpenQueue(c: Config, s: State, i: nat)
    requires Shape(c, s) && ParsersOrdered(c, s) && i < c.parsers && s.parserSlot[i] != []
    ensures s.pc <= c.ParserJoinAt(i) < c.EngineStopAt()
  {
  }

  lemma ParserPushOrdered(c: Config, s: State, i: nat)
    requires Safe(c, s) && Enabled(c, s, ParserPush(i))
    ensures var t := Apply(c, s, ParserPush(i));
            Shape(c, t) && Ordered(c, t)
  {
    ParserPushMeetsOpenQueue(c, s, i);
  }

  lemma ParserPushSafe(c: Config, s: State, i: nat)
    requires Safe(c, s) && Enabled(c, s, ParserPush(i))
    ensures Safe(c, Apply(c, s, ParserPush(i)))
  {
    ParserPushOrdered(c, s, i);
    ParserPushMeetsOpenQueue(c, s, i);
    var l := Balancer(c, s.parserSlot[i][0]);
    assert ForBalancer(c, l, s.lbQueue[l] + s.parserSlot[i]) && ForBalancer(c, l, s.lbLog[l] + s.parserSlot[i]);
  }

  lemma ParserExitSafe(c: Config, s: State, i: nat)
    requires Safe(c, s) && Enabled(c, s, ParserExit(i))
    ensures Safe(c, Apply(c, s, ParserExit(i)))
  {
  }

  lemma LbPopOrdered(c: Config, s: State, l: nat)
    requires Safe(c, s) && Enabled(c, s, LbPop(l))
    ensures var t := Apply(c, s, LbPop(l));
            Shape(c, t) && Ordered(c, t)
  {
  }

  lemma LbPopSafe(c: Config, s: State, l: nat)
    requires Safe(c, s) && Enabled(c, s, LbPop(l))
    ensures Safe(c, Apply(c, s, LbPop(l)))
  {
    LbPopOrdered(c, s, l);
    assert ForBalancer(c, l, s.lbQueue[l][1..]) && ForBalancer(c, l, [s.lbQueue[l][0]]);
  }

  /** No balancer still holding a packet can meet a shut-down fast path. */
  lemma LbPushMeetsOpenQueue(c: Config, s: State, l: nat)
    requires Shape(c, s) && BalancersOrdered(c, s) && l < c.balancers && s.lbSlot[l] != []
    ensures s.pc <= c.LbJoinAt(l) < c.EngineStopAt() + 1 + 3 * c.balancers
  {
  }

  lemma LbPushOrdered(c: Config, s: State, l: nat)
    requires Safe(c, s) && Enabled(c, s, LbPush(l))
    ensures var t := Apply(c, s, LbPush(l));
            Shape(c, t) && Ordered(c, t)
  {
    LbPushMeetsOpenQueue(c, s, l);
    assert PoolTarget(c, l, s.lbSlot[l][0]) == FastPath(c, s.lbSlot[l][0]);
  }

  lemma LbPushSafe(c: Config, s: State, l: nat)
    requires Safe(c, s) && Enabled(c, s, LbPush(l))
    ensures Safe(c, Apply(c, s, LbPush(l)))
  {
    LbPushOrdered(c, s, l);
    LbPushMeetsOpenQueue(c, s, l);
    var j := PoolTarget(c, l, s.lbSlot[l][0]);
    assert j == FastPath(c, s.lbSlot[l][0]);
    assert ForFastPath(c, j, s.fpQueue[j] + s.lbSlot[l]);
  }

  lemma LbExitSafe(c: Config, s: State, l: nat)
    requires Safe(c, s) && Enabled(c, s, LbExit(l))
    ensures Safe(c, Apply(c, s, LbExit(l)))
  {
  }

  lemma FpPopOrdered(c: Config, s: State, j: nat)
    requires Safe(c, s) && Enabled(c, s, FpPop(j))
    ensures var t := Apply(c, s, FpPop(j));
            Shape(c, t) && Ordered(c, t)
  {
  }

  lemma FpPopSafe(c: Config, s: State, j: nat)
    requires Safe(c, s) && Enabled(c, s, FpPop(j))
    ensures Safe(c, Apply(c, s, FpPop(j)))
  {
    FpPopOrdered(c, s, j);
    assert ForFastPath(c, j, s.fpQueue[j][1..]) && ForFastPath(c, j, [s.fpQueue[j][0]]);
  }

  /** Processing touches one fast path's hands and the books; a packet is emitted only with a file open. */
  lemma FpProcessFrame(c: Config, s: State, j: nat)
    requires Shape(c, s) && Enabled(c, s, FpProcess(j))
    ensures var t := Apply(c, s, FpProcess(j));
            && t == s.(fpSlot := s.fpSlot[j := []], processed := s.processed[j := s.processed[j] + s.fpSlot[j]],
                       emitting := t.emitting, forwarded := t.forwarded, dropped := t.dropped)
            && (t.emitting == s.emitting || (c.fileOpen && t.emitting == s.emitting[j := s.fpSlot[j]]))
  {
    hide Forwards;
  }

  lemma FpProcessOrdered(c: Config, s: State, j: nat)
    requires Safe(c, s) && Enabled(c, s, FpProcess(j))
    ensures var t := Apply(c, s, FpProcess(j));
            Shape(c, t) && Ordered(c, t)
  {
    hide Apply, Routed, Bounded;
    var t := Apply(c, s, FpProcess(j));
    FpProcessFrame(c, s, j);
    assert Shape(c, t);
    assert ParsersOrdered(c, t) && BalancersOrdered(c, t);
    assert FastPathsOrdered(c, t);
    assert OutputOrdered(c, t);
  }

  lemma FpProcessSafe(c: Config, s: State, j: nat)
    requires Safe(c, s) && Enabled(c, s, FpProcess(j))
    ensures Safe(c, Apply(c, s, FpProcess(j)))
  {
    hide Forwards;
    FpProcessOrdered(c, s, j);
    FpProcessRouted(c, s, j);
    hide Ordered, Routed, Shape, Enabled;
  }

  lemma FpProcessRouted(c: Config, s: State, j: nat)
    requires Safe(c, s) && Enabled(c, s, FpProcess(j)) && Shape(c, Apply(c, s, FpProcess(j)))
    ensures Routed(c, Apply(c, s, FpProcess(j)))
  {
    hide Ordered, Bounded, Apply;
    FpProcessFrame(c, s, j);
    assert ForFastPath(c, j, s.processed[j] + s.fpSlot[j]);
  }

  lemma FpEmitSafe(c: Config, s: State, j: nat)
    requires Safe(c, s) && Enabled(c, s, FpEmit(j))
    ensures Safe(c, Apply(c, s, FpEmit(j)))
  {
  }

  lemma FpExitSafe(c: Config, s: State, j: nat)
    requires Safe(c, s) && Enabled(c, s, FpExit(j))
    ensures Safe(c, Apply(c, s, FpExit(j)))
  {
  }

  lemma OutPopSafe(c: Config, s: State)
    requires Safe(c, s) && Enabled(c, s, OutPop)
    ensures Safe(c, Apply(c, s, OutPop))
  {
  }

  lemma OutWriteSafe(c: Config, s: State)
    requires Safe(c, s) && Enabled(c, s, OutWrite)
    ensures Safe(c, Apply(c, s, OutWrite))
  {
  }

  lemma OutExitSafe(c: Config, s: State)
    requires Safe(c, s) && Enabled(c, s, OutExit)
    ensures Safe(c, Apply(c, s, OutExit))
  {
  }

  lemma ControlSafe(c: Config, s: State)
    requires Safe(c, s) && Enabled(c, s, Control)
    ensures Safe(c, Apply(c, s, Control))
  {
  }

  lemma UpstreamSafe(c: Config, s: State, step: Step)
    requires Safe(c, s) && Enabled(c, s, step)
    requires step.ReaderPush? || step.ReaderExit? || step.ParserPop? || step.ParserReject? || step.ParserPush?
             || step.ParserExit?
    ensures Safe(c, Apply(c, s, step))
  {
    match step
    case ReaderPush => ReaderPushSafe(c, s);
    case ReaderExit => ReaderExitSafe(c, s);
    case ParserPop(i) => ParserPopSafe(c, s, i);
    case ParserReject(i) => ParserRejectSafe(c, s, i);
    case ParserPush(i) => ParserPushSafe(c, s, i);
    case ParserExit(i) => ParserExitSafe(c, s, i);
  }

  lemma BalancerSafe(c: Config, s: State, step: Step)
    requires Safe(c, s) && Enabled(c, s, step) && (step.LbPop? || step.LbPush? || step.LbExit?)
    ensures Safe(c, Apply(c, s, step))
  {
    match step
    case LbPop(l) => LbPopSafe(c, s, l);
    case LbPush(l) => LbPushSafe(c, s, l);
    case LbExit(l) => LbExitSafe(c, s, l);
  }

  lemma FastPathSafe(c: Config, s: State, step: Step)
    requires Safe(c, s) && Enabled(c, s, step) && (step.FpPop? || step.FpProcess? || step.FpEmit? || step.FpExit?)
    ensures Safe(c, Apply(c, s, step))
  {
    match step
    case FpPop(j) => FpPopSafe(c, s, j);
    case FpProcess(j) => FpProcessSafe(c, s, j);
    case FpEmit(j) => FpEmitSafe(c, s, j);
    case FpExit(j) => FpExitSafe(c, s, j);
  }

  lemma DownstreamSafe(c: Config, s: State, step: Step)
    requires Safe(c, s) && Enabled(c, s, step)
    requires step.OutPop? || step.OutWrite? || step.OutExit? || step.Control? || step.TimeOut?
    ensures Safe(c, Apply(c, s, step))
  {
    match step
    case OutPop => OutPopSafe(c, s);
    case OutWrite => OutWriteSafe(c, s);
    case OutExit => OutExitSafe(c, s);
    case Control => ControlSafe(c, s);
    case TimeOut =>
  }

  /** Every step of every thread keeps the pipeline safe. */
  lemma StepSafe(c: Config, s: State, step: Step)
    requires Safe(c, s) && Enabled(c, s, step)
    ensures Safe(c, Apply(c, s, step))
  {
    if step.LbPop? || step.LbPush? || step.LbExit? {
      BalancerSafe(c, s, step);
    } else if step.FpPop? || step.FpProcess? || step.FpEmit? || step.FpExit? {
      FastPathSafe(c, s, step);
    } else if step.OutPop? || step.OutWrite? || step.OutExit? || step.Control? || step.TimeOut? {
      DownstreamSafe(c, s, step);
    } else {
      UpstreamSafe(c, s, step);
    }
  }

  /** Every state of every run is safe; in particular no push ever met a shut-down queue. */
  lemma {:induction false} RunSafe(c: Config, states: seq<State>, steps: seq<Step>, n: nat)
    requires IsRun(c, states, steps) && n < |states|
    ensures Safe(c, states[n])
    ensures states[n].refused == []
  {
    if n == 0 {
      StartSafe(c);
    } else {
      RunSafe(c, states, steps, n - 1);
      assert StepTo(c, states[n - 1], steps[n - 1], states[n]);
      StepSafe(c, states[n - 1], steps[n - 1]);
    }
  }
}
