/**
 What the stages behind the parsers can hold back from the output. For given logs of what entered the balancers'
 queues, a backlog is bounded lane by lane, and once the output thread has left it only moves into the output queue.
 */
module PipelineBacklog {
  import opened Pipeline
  import opened PipelineSafety
  import opened PipelineConservation
  import opened PipelineProgress
  import opened PipelineOwnership

  // ---------------------------------------------------------------- packets to forward

  /** Packets of a list with the verdict to forward. */
  function Forwarded(c: Config, q: seq<nat>): nat {
    if q == [] then 0 else Forwarded(c, q[..|q| - 1]) + if Forwards(c, q[|q| - 1]) then 1 else 0
  }

  lemma {:induction false} ForwardedConcat(c: Config, a: seq<nat>, b: seq<nat>)
    ensures Forwarded(c, a + b) == Forwarded(c, a) + Forwarded(c, b)
  {
    if b == [] {
      assert a + b == a;
    } else {
      ForwardedConcat(c, a, b[..|b| - 1]);
      assert (a + b)[..|a + b| - 1] == a + b[..|b| - 1];
    }
  }

  lemma ForwardedOne(c: Config, p: nat)
    ensures Forwarded(c, [p]) == (if Forwards(c, p) then 1 else 0) && Forwarded(c, []) == 0
  {
    assert [p][..0] == [];
  }

  /** The last n elements, or all if there are fewer. */
  function Last<T>(q: seq<T>, n: nat): seq<T> {
    if |q| <= n then q else q[|q| - n..]
  }

  lemma LastOfLast<T>(q: seq<T>, m: nat, n: nat)
    requires m <= n
    ensures Last(Last(q, n), m) == Last(q, m)
    ensures |Last(q, n)| == if |q| <= n then |q| else n
    ensures exists front :: Last(q, n) == front + Last(q, m)
  {
    var x, y := Last(q, n), Last(q, m);
    assert x == x[..|x| - |y|] + y;
  }

  lemma LaterForwarded(c: Config, q: seq<nat>, m: nat, n: nat)
    requires m <= n
    ensures Forwarded(c, Last(q, m)) <= Forwarded(c, Last(q, n))
  {
    LastOfLast(q, m, n);
    var front :| Last(q, n) == front + Last(q, m);
    ForwardedConcat(c, front, Last(q, m));
  }

  lemma LaterSelected(c: Config, q: seq<nat>, m: nat, n: nat, j: nat)
    requires c.Valid() && m <= n
    ensures |Select(c, Last(q, m), j)| <= |Select(c, Last(q, n), j)|
  {
    LastOfLast(q, m, n);
    var front :| Last(q, n) == front + Last(q, m);
    SelectConcat(c, front, Last(q, m), j);
  }

  // ---------------------------------------------------------------- what can be held back

  /**
   The part of a lane that can be held back: of what enters the balancer's queue, the last that fill this queue and
   the balancer's hands, and of what comes before, for this fast path, the last that fill its queue and its hands.
   */
  function HeldLane(c: Config, log: seq<nat>, j: nat): seq<nat>
    requires c.Valid()
  {
    Last(Select(c, log, j), c.fpCapacity + 1 + |Select(c, Last(log, c.lbCapacity + 1), j)|)
  }

  /** Packets to forward that can be held back in the first k lanes. */
  function HeldBack(c: Config, logs: seq<seq<nat>>, k: nat): nat
    requires c.Valid() && |logs| == c.balancers && k <= c.FastPaths()
  {
    if k == 0 then 0 else HeldBack(c, logs, k - 1) + Forwarded(c, HeldLane(c, logs[Owner(c, k - 1)], k - 1))
  }

  // ---------------------------------------------------------------- the backlog of a state

  /** What a fast path holds or is still to receive. */
  function Waiting(c: Config, s: State, j: nat): seq<nat>
    requires Shape(c, s) && j < c.FastPaths()
  {
    var l := Owner(c, j);
    s.fpSlot[j] + s.fpQueue[j] + Select(c, s.lbSlot[l], j) + Select(c, s.lbQueue[l], j)
  }

  lemma LaneIsProcessedAndWaiting(c: Config, s: State, j: nat)
    requires Shape(c, s) && j < c.FastPaths()
    ensures Lane(c, s, j) == s.processed[j] + Waiting(c, s, j)
  {
    var l := Owner(c, j);
    var x, y := Select(c, s.lbSlot[l], j), Select(c, s.lbQueue[l], j);
    assert s.processed[j] + s.fpSlot[j] + s.fpQueue[j] + x + y == s.processed[j] + (s.fpSlot[j] + s.fpQueue[j] + x + y);
  }

  /** Packets of a lane that will still go to the output queue. */
  function Backlog(c: Config, s: State, j: nat): nat
    requires Shape(c, s) && j < c.FastPaths()
  {
    Forwarded(c, s.emitting[j]) + Forwarded(c, Waiting(c, s, j))
  }

  function Backlogs(c: Config, s: State, k: nat): nat
    requires Shape(c, s) && k <= c.FastPaths()
  {
    if k == 0 then 0 else Backlogs(c, s, k - 1) + Backlog(c, s, k - 1)
  }

  /** All that is still to reach the output queue, and what is in it. */
  function Pressure(c: Config, s: State): nat
    requires Shape(c, s)
  {
    Backlogs(c, s, c.FastPaths()) + |s.out|
  }

  /** A balancer's queue and hands hold the end of its log. */
  predicate LogEnds(c: Config, s: State, l: nat)
    requires Shape(c, s) && l < c.balancers
  {
    EndsWith(s.lbLog[l], s.lbSlot[l] + s.lbQueue[l])
  }

  predicate EndsWith<T(==)>(q: seq<T>, end: seq<T>) {
    |end| <= |q| && q[|q| - |end|..] == end
  }

  lemma EndGrows<T>(q: seq<T>, end: seq<T>, p: seq<T>)
    requires EndsWith(q, end)
    ensures EndsWith(q + p, end + p)
  {
    assert (q + p)[|q + p| - |end + p|..] == q[|q| - |end|..] + p;
  }

  lemma EndShrinks<T>(q: seq<T>, a: seq<T>, b: seq<T>)
    requires EndsWith(q, a + b)
    ensures EndsWith(q, b)
  {
    assert q[|q| - |b|..] == q[|q| - |a + b|..][|a|..];
  }

  /** The invariants the bound on backlogs rests on. */
  ghost predicate Sound(c: Config, s: State) {
    Safe(c, s) && InOrder(c, s) && VerdictsKept(c, s) && forall l :: 0 <= l < c.balancers ==> LogEnds(c, s, l)
  }

  // ---------------------------------------------------------------- the bound

  lemma SuffixIsLast<T>(q: seq<T>, front: seq<T>, tail: seq<T>)
    requires q == front + tail
    ensures tail == Last(q, |tail|)
  {
  }

  /** A balancer's queue and hands are the end of its log. */
  lemma HeldIsLast(c: Config, s: State, l: nat)
    requires Sound(c, s) && l < c.balancers
    ensures var held := s.lbSlot[l] + s.lbQueue[l];
            |held| <= c.lbCapacity + 1 && held == Last(s.lbLog[l], |held|)
  {
    assert LogEnds(c, s, l);
    assert |s.lbSlot[l]| <= 1 && |s.lbQueue[l]| <= c.lbCapacity;
  }

  lemma SelectedOfHeld(c: Config, s: State, l: nat, j: nat)
    requires Sound(c, s) && l < c.balancers
    ensures |Select(c, s.lbSlot[l], j)| + |Select(c, s.lbQueue[l], j)|
            <= |Select(c, Last(s.lbLog[l], c.lbCapacity + 1), j)|
  {
    hide *;
    Sizes(c, s);
    HeldIsLast(c, s, l);
    SelectConcat(c, s.lbSlot[l], s.lbQueue[l], j);
    LaterSelected(c, s.lbLog[l], |s.lbSlot[l] + s.lbQueue[l]|, c.lbCapacity + 1, j);
  }

  /** What a fast path emits and what waits for it is the end of its lane. */
  lemma BacklogEndsLane(c: Config, s: State, j: nat)
    requires Sound(c, s) && j < c.FastPaths()
    ensures s.emitting[j] + Waiting(c, s, j)
         == Last(Select(c, s.lbLog[Owner(c, j)], j), |s.emitting[j]| + |Waiting(c, s, j)|)
  {
    LaneIsProcessedAndWaiting(c, s, j);
    var lane := Select(c, s.lbLog[Owner(c, j)], j);
    var w := Waiting(c, s, j);
    assert Lane(c, s, j) == lane;
    var done := s.processed[j];
    if s.emitting[j] != [] {
      assert EmitsLast(c, s.emitting[j], s.fpSlot[j], done);
      assert done == done[..|done| - 1] + s.emitting[j];
      assert lane == done[..|done| - 1] + (s.emitting[j] + w);
      SuffixIsLast(lane, done[..|done| - 1], s.emitting[j] + w);
    } else {
      assert [] + w == w;
      SuffixIsLast(lane, done, w);
    }
  }

  lemma BacklogLength(c: Config, s: State, j: nat)
    requires Sound(c, s) && j < c.FastPaths()
    ensures |s.emitting[j]| + |Waiting(c, s, j)|
            <= c.fpCapacity + 1 + |Select(c, Last(s.lbLog[Owner(c, j)], c.lbCapacity + 1), j)|
  {
    SelectedOfHeld(c, s, Owner(c, j), j);
    assert s.emitting[j] != [] ==> EmitsLast(c, s.emitting[j], s.fpSlot[j], s.processed[j]);
    assert |s.fpQueue[j]| <= c.fpCapacity;
    assert |s.emitting[j]| <= 1 && |s.fpSlot[j]| <= 1;
    hide Safe, InOrder, VerdictsKept, Select, LogEnds;
  }

  lemma Sizes(c: Config, s: State)
    requires Sound(c, s)
    ensures Safe(c, s) && VerdictsKept(c, s) && Shape(c, s) && c.Valid() && |s.emitting| == c.FastPaths()
            && |s.lbLog| == c.balancers
  {
  }

  lemma BacklogIsForwarded(c: Config, s: State, j: nat)
    requires Shape(c, s) && j < c.FastPaths()
    ensures Backlog(c, s, j) == Forwarded(c, s.emitting[j] + Waiting(c, s, j))
  {
    hide Waiting, Forwarded;
    ForwardedConcat(c, s.emitting[j], Waiting(c, s, j));
  }

  /** No lane's backlog exceeds what the lane can hold back. */
  lemma BacklogIsHeld(c: Config, s: State, j: nat)
    requires Sound(c, s) && j < c.FastPaths()
    ensures Backlog(c, s, j) <= Forwarded(c, HeldLane(c, s.lbLog[Owner(c, j)], j))
  {
    Sizes(c, s);
    var log, backlog := s.lbLog[Owner(c, j)], s.emitting[j] + Waiting(c, s, j);
    hide *;
    BacklogIsForwarded(c, s, j);
    BacklogEndsLane(c, s, j);
    BacklogLength(c, s, j);
    EndIsHeld(c, log, j, backlog);
  }

  lemma EndIsHeld(c: Config, log: seq<nat>, j: nat, end: seq<nat>)
    requires c.Valid() && end == Last(Select(c, log, j), |end|)
    requires |end| <= c.fpCapacity + 1 + |Select(c, Last(log, c.lbCapacity + 1), j)|
    ensures Forwarded(c, end) <= Forwarded(c, HeldLane(c, log, j))
  {
    hide *;
    HeldLaneIs(c, log, j);
    LaterForwarded(c, Select(c, log, j), |end|, c.fpCapacity + 1 + |Select(c, Last(log, c.lbCapacity + 1), j)|);
  }

  lemma HeldLaneIs(c: Config, log: seq<nat>, j: nat)
    requires c.Valid()
    ensures HeldLane(c, log, j)
            == Last(Select(c, log, j), c.fpCapacity + 1 + |Select(c, Last(log, c.lbCapacity + 1), j)|)
  {
    hide Select, Last;
  }

  lemma BacklogsStep(c: Config, s: State, k: nat)
    requires Shape(c, s) && 0 < k <= c.FastPaths()
    ensures Backlogs(c, s, k) == Backlogs(c, s, k - 1) + Backlog(c, s, k - 1)
  {
    hide Backlog, Shape;
  }

  lemma NoBacklogs(c: Config, s: State)
    requires Shape(c, s)
    ensures Backlogs(c, s, 0) == 0
  {
  }

  lemma HeldBackStep(c: Config, logs: seq<seq<nat>>, k: nat)
    requires c.Valid() && |logs| == c.balancers && 0 < k <= c.FastPaths()
    ensures HeldBack(c, logs, k) == HeldBack(c, logs, k - 1) + Forwarded(c, HeldLane(c, logs[Owner(c, k - 1)], k - 1))
  {
    hide HeldLane, Forwarded;
  }

  lemma {:induction false} BacklogsAreHeld(c: Config, s: State, k: nat)
    requires Sound(c, s) && k <= c.FastPaths()
    ensures Backlogs(c, s, k) <= HeldBack(c, s.lbLog, k)
    decreases k
  {
    hide *;
    Sizes(c, s);
    if k > 0 {
      BacklogsAreHeld(c, s, k - 1);
      NextBacklogIsHeld(c, s, k);
    } else {
      NoBacklogs(c, s);
    }
  }

  lemma NextBacklogIsHeld(c: Config, s: State, k: nat)
    requires Sound(c, s) && 0 < k <= c.FastPaths() && Backlogs(c, s, k - 1) <= HeldBack(c, s.lbLog, k - 1)
    ensures Backlogs(c, s, k) <= HeldBack(c, s.lbLog, k)
  {
    hide *;
    Sizes(c, s);
    BacklogIsHeld(c, s, k - 1);
    BacklogsStep(c, s, k);
    HeldBackStep(c, s.lbLog, k);
  }

  // ---------------------------------------------------------------- the invariants over runs

  lemma LogEndsSame(c: Config, s: State, t: State, l: nat)
    requires Shape(c, s) && Shape(c, t) && l < c.balancers && LogEnds(c, s, l)
    requires t.lbSlot[l] + t.lbQueue[l] == s.lbSlot[l] + s.lbQueue[l] && t.lbLog[l] == s.lbLog[l]
    ensures LogEnds(c, t, l)
  {
  }

  lemma LogEndsGrow(c: Config, s: State, t: State, l: nat, p: seq<nat>)
    requires Shape(c, s) && Shape(c, t) && l < c.balancers && LogEnds(c, s, l)
    requires t.lbSlot[l] == s.lbSlot[l] && t.lbQueue[l] == s.lbQueue[l] + p && t.lbLog[l] == s.lbLog[l] + p
    ensures LogEnds(c, t, l)
  {
    EndGrows(s.lbLog[l], s.lbSlot[l] + s.lbQueue[l], p);
    assert t.lbSlot[l] + t.lbQueue[l] == s.lbSlot[l] + s.lbQueue[l] + p;
    hide EndsWith;
  }

  lemma LogEndsShrink(c: Config, s: State, t: State, l: nat)
    requires Shape(c, s) && Shape(c, t) && l < c.balancers && LogEnds(c, s, l)
    requires t.lbSlot[l] == [] && t.lbQueue[l] == s.lbQueue[l] && t.lbLog[l] == s.lbLog[l]
    ensures LogEnds(c, t, l)
  {
    EndShrinks(s.lbLog[l], s.lbSlot[l], s.lbQueue[l]);
    assert t.lbSlot[l] + t.lbQueue[l] == s.lbQueue[l];
    hide EndsWith;
  }

  /** What a parser's push does to a balancer's queue and log. */
  lemma ParserPushFrame(c: Config, s: State, i: nat, t: State, l: nat) returns (p: seq<nat>)
    requires SafeStep(c, s, ParserPush(i), t) && l < c.balancers
    ensures t.lbSlot[l] == s.lbSlot[l] && t.lbQueue[l] == s.lbQueue[l] + p && t.lbLog[l] == s.lbLog[l] + p
  {
    ParserPushMeetsOpenQueue(c, s, i);
    hide Ordered, Routed, Bounded;
    p := if l == Balancer(c, s.parserSlot[i][0]) then s.parserSlot[i] else [];
  }

  /** And a balancer's push to its hands. */
  lemma LbPushFrame(c: Config, s: State, k: nat, t: State, l: nat)
    requires SafeStep(c, s, LbPush(k), t) && l < c.balancers
    ensures t.lbSlot[l] == (if k == l then [] else s.lbSlot[l])
    ensures t.lbQueue[l] == s.lbQueue[l] && t.lbLog[l] == s.lbLog[l]
  {
    hide Safe, PoolTarget, FpShut;
  }

  /** A balancer's pop moves a packet from its queue to its hands. */
  lemma LbPopFrame(c: Config, s: State, k: nat, t: State, l: nat)
    requires SafeStep(c, s, LbPop(k), t) && l < c.balancers
    ensures t.lbSlot[l] + t.lbQueue[l] == s.lbSlot[l] + s.lbQueue[l] && t.lbLog[l] == s.lbLog[l]
  {
    hide Safe;
    if k == l {
      assert t.lbSlot[l] + t.lbQueue[l] == s.lbQueue[l];
      assert s.lbSlot[l] + s.lbQueue[l] == s.lbQueue[l];
    }
  }

  lemma OtherHeldFrame(c: Config, s: State, step: Step, t: State)
    requires SafeStep(c, s, step, t) && !step.ParserPush? && !step.LbPush? && !step.LbPop?
    ensures t.lbSlot == s.lbSlot && t.lbQueue == s.lbQueue && t.lbLog == s.lbLog
  {
    hide Safe, Shape;
  }

  lemma StepKeepsLogEnds(c: Config, s: State, step: Step, t: State, l: nat)
    requires SafeStep(c, s, step, t) && l < c.balancers && LogEnds(c, s, l)
    ensures LogEnds(c, t, l)
  {
    hide *;
    Shapes(c, s, step, t);
    if step.ParserPush? {
      var p := ParserPushFrame(c, s, step.i, t, l);
      LogEndsGrow(c, s, t, l, p);
    } else if step.LbPush? {
      LbPushFrame(c, s, step.l, t, l);
      if step.l == l { LogEndsShrink(c, s, t, l); } else { LogEndsSame(c, s, t, l); }
    } else {
      if step.LbPop? { LbPopFrame(c, s, step.l, t, l); } else { OtherHeldFrame(c, s, step, t); }
      LogEndsSame(c, s, t, l);
    }
  }

  lemma {:induction false} RunLogEnds(c: Config, states: seq<State>, steps: seq<Step>, n: nat, l: nat)
    requires IsRun(c, states, steps) && n < |states| && l < c.balancers
    ensures Shape(c, states[n]) && LogEnds(c, states[n], l)
  {
    hide Apply, Enabled, StepTo, Shape, Safe, LogEnds;
    if n == 0 {
      StartSafe(c);
      StartLogEnds(c, l);
    } else {
      AroundStep(c, states, steps, n - 1);
      RunLogEnds(c, states, steps, n - 1, l);
      StepKeepsLogEnds(c, states[n - 1], steps[n - 1], states[n], l);
    }
  }

  lemma StartLogEnds(c: Config, l: nat)
    requires c.Valid() && l < c.balancers
    ensures Shape(c, Start(c)) && LogEnds(c, Start(c), l)
  {
  }

  lemma RunSound(c: Config, states: seq<State>, steps: seq<Step>, n: nat)
    requires IsRun(c, states, steps) && n < |states|
    ensures Sound(c, states[n])
  {
    RunSafe(c, states, steps, n);
    RunInOrder(c, states, steps, n);
    RunKeepsVerdicts(c, states, steps, n);
    forall l | 0 <= l < c.balancers
      ensures LogEnds(c, states[n], l)
    {
      RunLogEnds(c, states, steps, n, l);
    }
    hide IsRun, Safe, InOrder, VerdictsKept, LogEnds;
  }

  // ---------------------------------------------------------------- once the output thread has left

  lemma Shapes(c: Config, s: State, step: Step, t: State)
    requires SafeStep(c, s, step, t)
    ensures Safe(c, s) && Shape(c, s) && Shape(c, t) && |s.lbLog| == |t.lbLog| == c.balancers
  {
  }

  /** A step that leaves a lane's backlog alone. */
  lemma SameBacklog(c: Config, s: State, t: State, j: nat)
    requires Shape(c, s) && Shape(c, t) && j < c.FastPaths()
    requires Lane(c, t, j) == Lane(c, s, j) && t.processed[j] == s.processed[j] && t.emitting[j] == s.emitting[j]
    ensures Backlog(c, t, j) == Backlog(c, s, j)
  {
    hide Forwarded, Lane;
    LaneIsProcessedAndWaiting(c, s, j);
    LaneIsProcessedAndWaiting(c, t, j);
    assert Waiting(c, s, j) == Lane(c, s, j)[|s.processed[j]|..];
    assert Waiting(c, t, j) == Lane(c, t, j)[|t.processed[j]|..];
  }

  lemma FpProcessKeepsBacklog(c: Config, s: State, k: nat, t: State, j: nat)
    requires SafeStep(c, s, FpProcess(k), t) && j < c.FastPaths() && c.fileOpen
    ensures Backlog(c, t, j) == Backlog(c, s, j)
  {
    hide *;
    if j != k {
      StepKeepsLane(c, s, FpProcess(k), t, j);
      ProcessedElsewhere(c, s, k, t, j);
      Shapes(c, s, FpProcess(k), t);
      SameBacklog(c, s, t, j);
    } else {
      ProcessedMoves(c, s, k, t);
    }
  }

  lemma ProcessedElsewhere(c: Config, s: State, k: nat, t: State, j: nat)
    requires SafeStep(c, s, FpProcess(k), t) && j < c.FastPaths() && j != k
    ensures t.processed[j] == s.processed[j] && t.emitting[j] == s.emitting[j]
  {
    hide Safe, Forwards;
  }

  /** What processing a packet does to its fast path's hands. */
  lemma ProcessedHere(c: Config, s: State, j: nat, t: State) returns (p: nat, rest: seq<nat>)
    requires SafeStep(c, s, FpProcess(j), t) && c.fileOpen
    ensures j < c.FastPaths() && Waiting(c, s, j) == [p] + rest && Waiting(c, t, j) == rest
    ensures s.emitting[j] == [] && t.emitting[j] == if Forwards(c, p) then [p] else []
  {
    hide Safe, Forwards, Select;
    p := s.fpSlot[j][0];
    var l := Owner(c, j);
    rest := s.fpQueue[j] + Select(c, s.lbSlot[l], j) + Select(c, s.lbQueue[l], j);
    assert s.fpSlot[j] == [p];
  }

  lemma ProcessedMoves(c: Config, s: State, j: nat, t: State)
    requires SafeStep(c, s, FpProcess(j), t) && c.fileOpen && j < c.FastPaths()
    ensures Backlog(c, t, j) == Backlog(c, s, j)
  {
    hide *;
    var p, rest := ProcessedHere(c, s, j, t);
    Shapes(c, s, FpProcess(j), t);
    BacklogIsForwarded(c, s, j);
    BacklogIsForwarded(c, t, j);
    ForwardedConcat(c, [p], rest);
    ForwardedOne(c, p);
    assert [] + ([p] + rest) == [p] + rest;
    assert [] + rest == rest;
  }

  /** Emitting a packet takes it from the backlog to the output queue. */
  lemma FpEmitMovesBacklog(c: Config, s: State, k: nat, t: State, j: nat)
    requires SafeStep(c, s, FpEmit(k), t) && j < c.FastPaths() && VerdictsKept(c, s)
    ensures Backlog(c, t, j) == Backlog(c, s, j) - if j == k then 1 else 0
    ensures |t.out| == |s.out| + 1
  {
    StepKeepsLane(c, s, FpEmit(k), t, j);
    FpEmitSafe(c, s, k);
    if j != k {
      hide Lane;
      SameBacklog(c, s, t, j);
    } else {
      assert EmitsLast(c, s.emitting[j], s.fpSlot[j], s.processed[j]);
      assert s.emitting[j] == [s.emitting[j][0]] && t.emitting[j] == [];
      ForwardedOne(c, s.emitting[j][0]);
      assert Waiting(c, t, j) == Waiting(c, s, j);
      hide Forwarded, Waiting, Forwards;
    }
  }

  /** The other steps a state without output thread and parsers can take. */
  lemma OtherKeepsBacklog(c: Config, s: State, step: Step, t: State, j: nat)
    requires SafeStep(c, s, step, t) && j < c.FastPaths() && s.outExited
    requires !step.ParserPush? && !step.FpProcess? && !step.FpEmit?
    ensures Backlog(c, t, j) == Backlog(c, s, j) && t.out == s.out
  {
    StepKeepsLane(c, s, step, t, j);
    OtherLeavesOutput(c, s, step, t);
    hide Apply, Enabled, Safe, Lane;
    SameBacklog(c, s, t, j);
  }

  lemma OtherLeavesOutput(c: Config, s: State, step: Step, t: State)
    requires SafeStep(c, s, step, t) && s.outExited
    requires !step.ParserPush? && !step.FpProcess? && !step.FpEmit?
    ensures t.processed == s.processed && t.emitting == s.emitting && t.out == s.out
  {
    assert s.outSlot == [];
  }

  /** Behind joined parsers no packet is pushed to a balancer any more. */
  lemma NoPushAfterExit(c: Config, s: State, step: Step, t: State)
    requires SafeStep(c, s, step, t) && s.outExited
    ensures !step.ParserPush? && t.lbLog == s.lbLog && t.outExited
  {
    if step.ParserPush? { ParserPushMeetsOpenQueue(c, s, step.i); }
  }

  lemma {:induction false} StepMovesBacklogs(c: Config, s: State, step: Step, t: State, k: nat)
    requires SafeStep(c, s, step, t) && VerdictsKept(c, s) && s.outExited && c.fileOpen && k <= c.FastPaths()
    ensures Backlogs(c, t, k) == Backlogs(c, s, k) - if step.FpEmit? && step.j < k then 1 else 0
    decreases k
  {
    hide *;
    Shapes(c, s, step, t);
    NoPushAfterExit(c, s, step, t);
    if k > 0 {
      StepMovesBacklogs(c, s, step, t, k - 1);
      BacklogsStep(c, s, k);
      BacklogsStep(c, t, k);
      StepMovesBacklog(c, s, step, t, k - 1);
    } else {
      NoBacklogs(c, s);
      NoBacklogs(c, t);
    }
  }

  lemma StepMovesBacklog(c: Config, s: State, step: Step, t: State, j: nat)
    requires SafeStep(c, s, step, t) && VerdictsKept(c, s) && s.outExited && c.fileOpen && j < c.FastPaths()
    requires !step.ParserPush?
    ensures Backlog(c, t, j) == Backlog(c, s, j) - if step.FpEmit? && step.j == j then 1 else 0
  {
    hide *;
    if step.FpEmit? {
      FpEmitMovesBacklog(c, s, step.j, t, j);
    } else if step.FpProcess? {
      FpProcessKeepsBacklog(c, s, step.j, t, j);
    } else {
      OtherKeepsBacklog(c, s, step, t, j);
    }
  }

  lemma StepMovesOutput(c: Config, s: State, step: Step, t: State)
    requires SafeStep(c, s, step, t) && s.outExited
    ensures |t.out| == |s.out| + if step.FpEmit? then 1 else 0
    ensures step.FpEmit? ==> step.j < c.FastPaths()
  {
    hide *;
    if step.FpEmit? {
      EmitGrowsOutput(c, s, step.j, t);
    } else {
      OtherLeavesQueue(c, s, step, t);
    }
  }

  lemma EmitGrowsOutput(c: Config, s: State, j: nat, t: State)
    requires SafeStep(c, s, FpEmit(j), t)
    ensures j < c.FastPaths() && |t.out| == |s.out| + 1
  {
    FpEmitSafe(c, s, j);
    assert |s.emitting[j]| == 1;
    hide Routed, Bounded;
  }

  lemma OtherLeavesQueue(c: Config, s: State, step: Step, t: State)
    requires SafeStep(c, s, step, t) && s.outExited && !step.FpEmit?
    ensures t.out == s.out
  {
    assert s.outSlot == [];
    hide Safe;
  }

  /** With the output thread gone, the pressure on the output queue stays what it is. */
  lemma PressureStays(c: Config, s: State, step: Step, t: State)
    requires SafeStep(c, s, step, t) && VerdictsKept(c, s) && s.outExited && c.fileOpen
    ensures Pressure(c, t) == Pressure(c, s)
  {
    hide *;
    Shapes(c, s, step, t);
    PressureIs(c, s);
    PressureIs(c, t);
    StepMovesBacklogs(c, s, step, t, c.FastPaths());
    StepMovesOutput(c, s, step, t);
  }

  lemma SameBacklogs(c: Config, s: State, t: State, k: nat)
    requires Shape(c, s) && Shape(c, t) && k <= c.FastPaths()
    requires t.lbQueue == s.lbQueue && t.lbSlot == s.lbSlot && t.fpQueue == s.fpQueue && t.fpSlot == s.fpSlot
    requires t.emitting == s.emitting
    ensures Backlogs(c, t, k) == Backlogs(c, s, k)
  {
    hide Forwarded, Select, Owner;
    if k > 0 { SameBacklogs(c, s, t, k - 1); }
  }

  lemma PressureIs(c: Config, s: State)
    requires Shape(c, s)
    ensures Pressure(c, s) == Backlogs(c, s, c.FastPaths()) + |s.out|
  {
    hide Backlogs, Shape;
  }

  /** When the output thread leaves, the pressure is the backlog, and that can be held back. */
  lemma PressureAtExit(c: Config, s: State, t: State)
    requires SafeStep(c, s, OutExit, t) && Sound(c, t)
    ensures Pressure(c, t) <= HeldBack(c, t.lbLog, c.FastPaths())
  {
    assert t.out == [];
    hide *;
    PressureIs(c, t);
    BacklogsAreHeld(c, t, c.FastPaths());
  }

  lemma {:induction false} RunPressure(c: Config, states: seq<State>, steps: seq<Step>, n: nat)
    requires IsRun(c, states, steps) && n < |states| && c.fileOpen
    ensures Sound(c, states[n])
    ensures states[n].outExited ==> Pressure(c, states[n]) <= HeldBack(c, states[n].lbLog, c.FastPaths())
  {
    hide *;
    RunStarts(c, states, steps);
    RunSound(c, states, steps, n);
    if n > 0 && states[n].outExited {
      RunPressure(c, states, steps, n - 1);
      AroundStep(c, states, steps, n - 1);
      PressureStep(c, states[n - 1], steps[n - 1], states[n]);
    }
  }

  lemma RunStarts(c: Config, states: seq<State>, steps: seq<Step>)
    requires IsRun(c, states, steps)
    ensures |states| == |steps| + 1 && !states[0].outExited
  {
    hide StepTo;
  }

  lemma PressureStep(c: Config, s: State, step: Step, t: State)
    requires SafeStep(c, s, step, t) && Sound(c, s) && Sound(c, t) && c.fileOpen && t.outExited
    requires s.outExited ==> Pressure(c, s) <= HeldBack(c, s.lbLog, c.FastPaths())
    ensures Pressure(c, t) <= HeldBack(c, t.lbLog, c.FastPaths())
  {
    hide *;
    Sizes(c, s);
    if s.outExited {
      NoPushAfterExit(c, s, step, t);
      PressureStays(c, s, step, t);
    } else {
      ExitsByStep(c, s, step, t);
      PressureAtExit(c, s, t);
    }
  }

  lemma ExitsByStep(c: Config, s: State, step: Step, t: State)
    requires SafeStep(c, s, step, t) && !s.outExited && t.outExited
    ensures step.OutExit?
  {
    hide Ordered, Routed, Bounded, Shape;
  }
}
