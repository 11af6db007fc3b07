/**
 Exactly which configurations can clog: with an output file open, those whose input can be dealt to the balancers so
 that the stages behind the parsers hold back more packets to forward than the output queue takes. In such a run the
 engine clears running_, the output thread sees an empty queue and leaves, and then the fast paths go on forwarding.
 */
module PipelineClog {
  import opened Pipeline
  import opened PipelineSafety
  import opened PipelineConservation
  import opened PipelineProgress
  import opened PipelineOwnership
  import opened PipelineDeals
  import opened PipelineBacklog
  import opened PipelineGather
  import opened PipelineHeldBack

  ghost predicate CanClog(c: Config) {
    exists s :: Reachable(c, s) && Clogged(c, s)
  }

  // ---------------------------------------------------------------- what a greedy run holds back

  /** A fast path that has processed nothing has its whole lane waiting. */
  lemma WholeLaneWaits(c: Config, s: State, j: nat)
    requires Sound(c, s) && j < c.FastPaths() && s.processed[j] == []
    ensures Waiting(c, s, j) == Select(c, s.lbLog[Owner(c, j)], j)
  {
    LaneIsProcessedAndWaiting(c, s, j);
    assert Lane(c, s, j) == Select(c, s.lbLog[Owner(c, j)], j);
    hide Select, Safe, Lane, Waiting;
    assert [] + Waiting(c, s, j) == Waiting(c, s, j);
  }

  /** A balancer with a packet in its hands and a full queue holds the last of its log. */
  lemma FullBalancerHolds(c: Config, s: State, l: nat, j: nat)
    requires Sound(c, s) && l < c.balancers && s.lbSlot[l] != [] && |s.lbQueue[l]| == c.lbCapacity
    ensures |Select(c, s.lbSlot[l], j)| + |Select(c, s.lbQueue[l], j)|
         == |Select(c, Last(s.lbLog[l], c.lbCapacity + 1), j)|
  {
    assert LogEnds(c, s, l);
    var held := s.lbSlot[l] + s.lbQueue[l];
    assert |s.lbSlot[l]| == 1;
    hide Safe, InOrder, VerdictsKept, Select;
    SelectConcat(c, s.lbSlot[l], s.lbQueue[l], j);
    assert held == Last(s.lbLog[l], c.lbCapacity + 1);
  }

  lemma GreedyLane(c: Config, s: State, j: nat)
    requires Sound(c, s) && Greedy(c, s) && j < c.FastPaths() && s.processed[j] != []
    ensures var l := Owner(c, j);
            && l < c.balancers && s.lbSlot[l] != [] && |s.lbQueue[l]| == c.lbCapacity
            && |s.fpSlot[j]| == 1 && |s.fpQueue[j]| == c.fpCapacity && s.emitting[j] == []
  {
    var l := Owner(c, j);
    assert NoneAhead(c, s, j) && FastPathFull(c, s, j) && BalancerFull(c, s, l);
  }

  lemma WaitingLength(c: Config, s: State, j: nat)
    requires Shape(c, s) && j < c.FastPaths()
    ensures var l := Owner(c, j);
            |Waiting(c, s, j)| == |s.fpSlot[j]| + |s.fpQueue[j]| + |Select(c, s.lbSlot[l], j)|
                                  + |Select(c, s.lbQueue[l], j)|
  {
    hide Select, Owner;
  }

  /** A greedy run holds back in each lane what the lane can hold back. */
  lemma GreedyHoldsBack(c: Config, s: State, j: nat)
    requires Sound(c, s) && Greedy(c, s) && j < c.FastPaths()
    ensures Backlog(c, s, j) >= Forwarded(c, HeldLane(c, s.lbLog[Owner(c, j)], j))
  {
    hide *;
    Sizes(c, s);
    var l := Owner(c, j);
    var log := s.lbLog[l];
    if s.processed[j] == [] {
      WholeLaneWaits(c, s, j);
      WaitingIsBacklog(c, s, j);
      AllIsMost(c, log, j);
    } else {
      GreedyLane(c, s, j);
      WaitingIsBacklog(c, s, j);
      FullBalancerHolds(c, s, l, j);
      WaitingLength(c, s, j);
      BacklogEndsLane(c, s, j);
      HeldLaneIs(c, log, j);
      assert [] + Waiting(c, s, j) == Waiting(c, s, j);
    }
  }

  lemma WaitingIsBacklog(c: Config, s: State, j: nat)
    requires Shape(c, s) && j < c.FastPaths()
    ensures Backlog(c, s, j) >= Forwarded(c, Waiting(c, s, j))
  {
    hide Waiting, Forwarded;
  }

  lemma AllIsMost(c: Config, log: seq<nat>, j: nat)
    requires c.Valid()
    ensures Forwarded(c, Select(c, log, j)) >= Forwarded(c, HeldLane(c, log, j))
  {
    hide *;
    HeldLaneIs(c, log, j);
    var lane, held := Select(c, log, j), c.fpCapacity + 1 + |Select(c, Last(log, c.lbCapacity + 1), j)|;
    LaterForwarded(c, lane, held, held + |lane|);
    LastIsAll(lane, held + |lane|);
  }

  lemma {:induction false} GreedyHoldsBackAll(c: Config, s: State, k: nat)
    requires Sound(c, s) && Greedy(c, s) && k <= c.FastPaths()
    ensures Backlogs(c, s, k) >= HeldBack(c, s.lbLog, k)
    decreases k
  {
    hide *;
    Sizes(c, s);
    if k > 0 {
      GreedyHoldsBackAll(c, s, k - 1);
      GreedyHoldsBack(c, s, k - 1);
      BacklogsStep(c, s, k);
      HeldBackStep(c, s.lbLog, k);
    } else {
      NothingHeldBack(c, s.lbLog);
    }
  }

  // ---------------------------------------------------------------- the engine stops

  /** The threads' queues and hands behind the parsers, and the balancers' logs, stay as they are. */
  predicate SameBehind(s: State, t: State) {
    && t.lbQueue == s.lbQueue && t.lbSlot == s.lbSlot && t.fpQueue == s.fpQueue && t.fpSlot == s.fpSlot
    && t.emitting == s.emitting && t.out == s.out && t.outSlot == s.outSlot && t.lbLog == s.lbLog
  }

  /** The input is read and handed on, and the parsers from i on have still to be stopped. */
  ghost predicate Stopping(c: Config, s: State, i: nat) {
    && Reachable(c, s) && i <= c.parsers && s.pc == c.ParserStopAt(i) && s.raw == []
    && (forall k :: 0 <= k < c.parsers ==> s.parserSlot[k] == [])
    && (forall k :: i <= k < c.parsers ==> !s.parserExited[k])
  }

  lemma ReaderLeaves(c: Config, s: State) returns (t: State)
    requires Reachable(c, s) && Calm(s) && s.next == |c.packets|
    requires forall k :: 0 <= k < c.parsers ==> s.parserSlot[k] == []
    ensures Stopping(c, t, 0) && SameBehind(s, t)
  {
    NoParserLeft(c, s);
    hide Sound, Ordered, Routed, Bounded;
    var s1 := Go(c, s, ReaderExit);
    var s2 := Go(c, s1, Control);
    t := Go(c, s2, Control);
  }

  lemma NoParserLeft(c: Config, s: State)
    requires Safe(c, s) && s.pc == 0
    ensures forall k :: 0 <= k < c.parsers ==> !s.parserExited[k]
  {
  }

  lemma OneParserStops(c: Config, s: State, i: nat) returns (t: State)
    requires Stopping(c, s, i) && i < c.parsers
    ensures Stopping(c, t, i + 1) && SameBehind(s, t)
  {
    hide Sound, Ordered, Routed, Bounded;
    var s1 := Go(c, s, Control);
    var s2 := Go(c, s1, ParserExit(i));
    t := Go(c, s2, Control);
  }

  lemma {:induction false} ParsersStop(c: Config, s: State, i: nat) returns (t: State)
    requires Stopping(c, s, i)
    ensures Stopping(c, t, c.parsers) && SameBehind(s, t)
    decreases c.parsers - i
  {
    IndexInRange(c, s, i);
    hide Stopping;
    if i == c.parsers {
      t := s;
    } else {
      t := OneParserStops(c, s, i);
      t := ParsersStop(c, t, i + 1);
    }
  }

  lemma IndexInRange(c: Config, s: State, i: nat)
    requires Stopping(c, s, i)
    ensures i <= c.parsers
  {
  }

  /** running_ is cleared and the output thread, with nothing to write, leaves at once. */
  lemma OutputLeaves(c: Config, s: State) returns (t: State)
    requires Stopping(c, s, c.parsers) && s.out == [] && s.outSlot == []
    ensures Reachable(c, t) && t.outExited && SameBehind(s, t)
  {
    OutputStays(c, s);
    hide Sound, Ordered, Routed, Bounded;
    var s1 := Go(c, s, Control);
    t := Go(c, s1, OutExit);
  }

  lemma OutputStays(c: Config, s: State)
    requires Safe(c, s) && s.pc <= c.EngineStopAt()
    ensures !s.outExited
  {
  }

  lemma EngineStops(c: Config, s: State) returns (t: State)
    requires Reachable(c, s) && Calm(s) && s.next == |c.packets|
    requires forall k :: 0 <= k < c.parsers ==> s.parserSlot[k] == []
    ensures Reachable(c, t) && t.outExited && SameBehind(s, t)
  {
    hide Reachable, Sound, Safe, Stopping;
    t := ReaderLeaves(c, s);
    t := ParsersStop(c, t, 0);
    t := OutputLeaves(c, t);
  }

  // ---------------------------------------------------------------- afterwards

  lemma ReachableInRange(c: Config, s: State)
    requires Reachable(c, s)
    ensures InRange(c, s)
    ensures s.pc == c.DoneAt() ==> NothingBehind(s)
  {
    hide StepTo, Start, Sound, Safe;
    var states, steps :| IsRun(c, states, steps) && states[|steps|] == s;
    MovesAreBounded(c, states, steps, |steps|);
    if s.pc == c.DoneAt() { FinishedIsDrained(c, states, steps, |steps|); }
  }

  predicate NothingBehind(s: State) {
    Length(s.lbQueue) == Length(s.lbSlot) == Length(s.fpQueue) == Length(s.fpSlot) == Length(s.emitting) == 0
  }

  lemma NoBacklog(c: Config, s: State, j: nat)
    requires Shape(c, s) && NothingBehind(s) && j < c.FastPaths()
    ensures Backlog(c, s, j) == 0
  {
    var l := Owner(c, j);
    LengthAtLeast(s.emitting, j);
    LengthAtLeast(s.fpSlot, j);
    LengthAtLeast(s.fpQueue, j);
    LengthAtLeast(s.lbSlot, l);
    LengthAtLeast(s.lbQueue, l);
    hide Length, Owner;
    assert s.fpSlot[j] == [] && s.fpQueue[j] == [] && s.lbSlot[l] == [] && s.lbQueue[l] == [] && s.emitting[j] == [];
  }

  lemma {:induction false} NoBacklogLeft(c: Config, s: State, k: nat)
    requires Shape(c, s) && NothingBehind(s) && k <= c.FastPaths()
    ensures Backlogs(c, s, k) == 0
    decreases k
  {
    hide *;
    if k > 0 {
      NoBacklogLeft(c, s, k - 1);
      NoBacklog(c, s, k - 1);
      BacklogsStep(c, s, k);
    } else {
      NoBacklogs(c, s);
    }
  }

  /** A finished run has put all of its pressure into the output queue. */
  lemma FinishedPressure(c: Config, s: State)
    requires Reachable(c, s) && s.pc == c.DoneAt()
    ensures Pressure(c, s) <= c.outCapacity
  {
    ReachableInRange(c, s);
    assert |s.out| <= c.outCapacity;
    hide *;
    OfReachable(c, s);
    NoBacklogLeft(c, s, c.FastPaths());
    PressureIs(c, s);
  }

  /** Without output thread, more pressure than the output queue takes ends in a clog whatever the threads do. */
  lemma {:induction false} Overflows(c: Config, s: State) returns (t: State)
    requires Reachable(c, s) && c.fileOpen && s.outExited && InRange(c, s) && Pressure(c, s) > c.outCapacity
    ensures Reachable(c, t) && Clogged(c, t)
    decreases Measure(c, s)
  {
    hide *;
    OfReachable(c, s);
    if Clogged(c, s) {
      t := s;
    } else if s.pc < c.DoneAt() {
      t := PressureMoves(c, s);
      t := Overflows(c, t);
    } else {
      InRangeIs(c, s);
      FinishedPressure(c, s);
      assert false;
    }
  }

  lemma InRangeIs(c: Config, s: State)
    requires InRange(c, s)
    ensures s.pc <= c.DoneAt()
  {
  }

  lemma PressureMoves(c: Config, s: State) returns (t: State)
    requires Reachable(c, s) && c.fileOpen && s.outExited && InRange(c, s) && s.pc < c.DoneAt() && !Clogged(c, s)
    ensures Reachable(c, t) && t.outExited && Pressure(c, t) == Pressure(c, s)
    ensures InRange(c, t) && Measure(c, t) < Measure(c, s)
  {
    hide *;
    OfReachable(c, s);
    var step := MoveExists(c, s);
    MoveIs(c, s, step);
    t := Go(c, s, step);
    OfReachable(c, t);
    StepIsSafe(c, s, step, t);
    StepDecreases(c, s, step);
    NoPushAfterExit(c, s, step, t);
    PressureStays(c, s, step, t);
  }

  lemma MoveIs(c: Config, s: State, step: Step)
    requires CanMove(c, s, step)
    ensures Shape(c, s) && Enabled(c, s, step) && !step.TimeOut?
  {
  }

  lemma StepIsSafe(c: Config, s: State, step: Step, t: State)
    requires Safe(c, s) && Enabled(c, s, step) && t == Apply(c, s, step) && Shape(c, t)
    ensures SafeStep(c, s, step, t)
  {
  }

  // ---------------------------------------------------------------- which configurations clog

  lemma ClogWitness(c: Config, s: State)
    requires Reachable(c, s) && Clogged(c, s)
    ensures CanClog(c)
  {
  }

  /** A deal after which more can be held back than the output queue takes lets some run clog. */
  lemma ClogsIfHeldBack(c: Config, logs: seq<seq<nat>>)
    requires c.Valid() && c.fileOpen && Dealable(c, logs)
    requires HeldBack(c, logs, c.FastPaths()) > c.outCapacity
    ensures CanClog(c)
  {
    var s := GatherAll(c, logs);
    var t := EngineStops(c, s);
    ReachableInRange(c, t);
    assert c.Valid() && t.out == [];
    hide *;
    OfReachable(c, s);
    OfReachable(c, t);
    GreedyHoldsBackAll(c, s, c.FastPaths());
    BehindIs(s, t);
    SameBacklogs(c, s, t, c.FastPaths());
    PressureIs(c, t);
    var u := Overflows(c, t);
    ClogWitness(c, u);
  }

  lemma BehindIs(s: State, t: State)
    requires SameBehind(s, t)
    ensures t.lbQueue == s.lbQueue && t.lbSlot == s.lbSlot && t.fpQueue == s.fpQueue && t.fpSlot == s.fpSlot
    ensures t.emitting == s.emitting && t.out == s.out && t.lbLog == s.lbLog
  {
  }

  lemma GatherAll(c: Config, logs: seq<seq<nat>>) returns (s: State)
    requires c.Valid() && c.fileOpen && Dealable(c, logs)
    ensures Reachable(c, s) && Greedy(c, s) && Calm(s) && s.next == |c.packets| && s.lbLog == logs
    ensures forall k :: 0 <= k < c.parsers ==> s.parserSlot[k] == []
  {
    hide Sound, Safe, Greedy, AfterDeals;
    var deals :| AfterDeals(c, deals) == Front(|c.packets|, Replicate(c.parsers, []), logs);
    s := Gather(c, deals);
    OfReachable(c, s);
    CalmIfGreedy(c, s);
  }

  /** Whatever clogs has been dealt so that more can be held back than the output queue takes. */
  lemma HeldBackIfClogged(c: Config, s: State)
    requires Reachable(c, s) && Clogged(c, s) && c.Valid()
    ensures c.fileOpen && |s.lbLog| == c.balancers && Dealable(c, s.lbLog)
    ensures HeldBack(c, s.lbLog, c.FastPaths()) > c.outCapacity
  {
    CloggedOpen(c, s);
    hide Sound, Safe, StepTo, Start, Pressure, HeldBack, Dealable;
    var states, steps :| IsRun(c, states, steps) && states[|steps|] == s;
    RunPressure(c, states, steps, |steps|);
    ExitDeals(c, states, steps, |steps|);
    CloggedPressure(c, s);
  }

  lemma CloggedOpen(c: Config, s: State)
    requires Reachable(c, s) && Clogged(c, s)
    ensures c.fileOpen && s.outExited && Shape(c, s) && |s.lbLog| == c.balancers
  {
  }

  lemma {:induction false} BacklogsAtLeast(c: Config, s: State, j: nat, k: nat)
    requires Shape(c, s) && j < k <= c.FastPaths()
    ensures Backlog(c, s, j) <= Backlogs(c, s, k)
    decreases k
  {
    hide *;
    BacklogsStep(c, s, k);
    if j < k - 1 { BacklogsAtLeast(c, s, j, k - 1); }
  }

  /** In a clogged state the output queue is full and one packet more is to go into it. */
  lemma CloggedPressure(c: Config, s: State)
    requires Sound(c, s) && Clogged(c, s)
    ensures Pressure(c, s) > c.outCapacity
  {
    hide *;
    Sizes(c, s);
    var j := Emitting(c, s);
    BacklogsAtLeast(c, s, j, c.FastPaths());
    PressureIs(c, s);
  }

  lemma Emitting(c: Config, s: State) returns (j: nat)
    requires Sound(c, s) && Clogged(c, s)
    ensures j < c.FastPaths() && Backlog(c, s, j) >= 1 && |s.out| >= c.outCapacity
  {
    j :| 0 <= j < |s.emitting| && s.emitting[j] != [];
    assert EmitsLast(c, s.emitting[j], s.fpSlot[j], s.processed[j]);
    hide Sound, Safe, InOrder, Waiting;
    ForwardedOne(c, s.emitting[j][0]);
  }

  /**
   Exactly which configurations can clog: an output file is open, and the parsers can deal the input to the balancers
   so that more packets to forward can be held back than the output queue takes.
   */
  lemma ClogsIff(c: Config)
    requires c.Valid()
    ensures CanClog(c) <==>
              c.fileOpen && exists logs :: Dealable(c, logs) && HeldBack(c, logs, c.FastPaths()) > c.outCapacity
  {
    hide Reachable, Clogged, HeldBack, Dealable;
    if CanClog(c) {
      var s :| Reachable(c, s) && Clogged(c, s);
      HeldBackIfClogged(c, s);
    }
    if logs :| c.fileOpen && Dealable(c, logs) && HeldBack(c, logs, c.FastPaths()) > c.outCapacity {
      ClogsIfHeldBack(c, logs);
    }
  }

  /** With one parser the balancers get the packets in reader order, and the configuration alone decides. */
  lemma OneParserClogsIff(c: Config)
    requires c.Valid() && c.parsers == 1
    ensures CanClog(c) <==>
              c.fileOpen && HeldBack(c, ReaderLogs(c, |c.packets|), c.FastPaths()) > c.outCapacity
  {
    hide CanClog, HeldBack, Dealable;
    ClogsIff(c);
    FirstParserDealsAll(c);
    if logs :| Dealable(c, logs) && HeldBack(c, logs, c.FastPaths()) > c.outCapacity {
      OneParserDealsInOrder(c, logs);
    }
  }

  lemma FirstParserDealsAll(c: Config)
    requires c.Valid()
    ensures Dealable(c, ReaderLogs(c, |c.packets|))
  {
    FirstParserDeals(c, |c.packets|);
  }

  // ---------------------------------------------------------------- closed forms

  /** Without more packets that go out than the output queue takes, or without a file, no reachable state is clogged. */
  lemma NeverClogsByOutgoing(c: Config, s: State)
    requires Reachable(c, s) && (!c.fileOpen || Outgoing(c, |c.packets|) <= c.outCapacity)
    ensures !Clogged(c, s)
  {
    hide StepTo, Start, Clogged;
    var states, steps :| IsRun(c, states, steps) && states[|steps|] == s;
    NeverClogs(c, states, steps, |steps|);
  }

  /**
   For any number of parsers, as long as each balancer's share fits its queue and its hands: a configuration can clog
   exactly if a file is open and more packets parse and are forwarded than the output queue takes.
   */
  lemma ClogsIffOutgoingOverflows(c: Config)
    requires c.Valid() && SharesFit(c)
    ensures CanClog(c) <==> c.fileOpen && Outgoing(c, |c.packets|) > c.outCapacity
  {
    LanesAddUp(c, |c.packets|);
    FittingSharesAreHeld(c, c.FastPaths());
    FirstParserDealsAll(c);
    if c.fileOpen && Outgoing(c, |c.packets|) > c.outCapacity {
      ClogsIfHeldBack(c, ReaderLogs(c, |c.packets|));
    }
    if CanClog(c) {
      var s :| Reachable(c, s) && Clogged(c, s);
      if !c.fileOpen || Outgoing(c, |c.packets|) <= c.outCapacity { NeverClogsByOutgoing(c, s); }
    }
    hide Clogged, Reachable;
  }

  /** An output queue with room for what all balancers and fast paths can hold is never clogged, whatever the input. */
  lemma NeverClogsBySize(c: Config)
    requires c.Valid()
    requires c.outCapacity >= c.balancers * (c.lbCapacity + 1) + c.FastPaths() * (c.fpCapacity + 1)
    ensures !CanClog(c)
  {
    assert c.outCapacity >= Room(c, c.balancers, c.FastPaths());
    hide CanClog, HeldBack, Dealable, Room;
    ClogsIff(c);
    if logs :| Dealable(c, logs) && HeldBack(c, logs, c.FastPaths()) > c.outCapacity {
      HeldBackAtMost(c, logs);
    }
  }

  /**
   One parser, balancer and fast path: writing a file can clog exactly if, of the last packets that parse, as many as
   both queues and both threads hold, more are forwarded than the output queue takes.
   */
  lemma OneLaneClogsIff(c: Config)
    requires c.Valid() && c.parsers == c.balancers == c.fpsPerBalancer == 1
    ensures CanClog(c) <==>
              && c.fileOpen
              && Forwarded(c, Last(Accepted(c, 0, |c.packets|), c.lbCapacity + c.fpCapacity + 2)) > c.outCapacity
  {
    assert c.FastPaths() == 1;
    AcceptedIncreasing(c, 0, |c.packets|);
    var logs := ReaderLogs(c, |c.packets|);
    assert logs[0] == Accepted(c, 0, |c.packets|) && InInput(c, logs[0]);
    hide *;
    SingleHeldBack(c, logs);
    SingleLaneHolds(c, logs[0]);
    OneParserClogsIff(c);
  }

  /** The engine's own sizes: only the raw and the output queue follow the configured queue size. */
  function Engine(queueSize: nat, packets: seq<Packet>, parsers: nat, balancers: nat, fps: nat): (c: Config)
    ensures 1 <= queueSize && 1 <= parsers && 1 <= balancers && 1 <= fps ==> c.Valid()
  {
    Config(packets, parsers, balancers, fps, queueSize, 10000, 10000, queueSize, true)
  }

  /** Writing a file with one parser: what the engine's fixed queues can hold back against its queue size. */
  lemma EngineClogsIff(queueSize: nat, packets: seq<Packet>, balancers: nat, fps: nat)
    requires 1 <= queueSize && 1 <= balancers && 1 <= fps
    ensures var c := Engine(queueSize, packets, 1, balancers, fps);
            CanClog(c) <==> HeldBack(c, ReaderLogs(c, |packets|), c.FastPaths()) > queueSize
  {
    OneParserClogsIff(Engine(queueSize, packets, 1, balancers, fps));
    hide CanClog, HeldBack;
  }

  /** n packets that all parse and are forwarded, through one parser, balancer and fast path. */
  lemma ForwardingEngineClogsIff(queueSize: nat, packets: seq<Packet>)
    requires 1 <= queueSize && forall p :: 0 <= p < |packets| ==> packets[p].parses && packets[p].forwarded
    ensures CanClog(Engine(queueSize, packets, 1, 1, 1)) <==> queueSize < |packets| && queueSize < 20002
  {
    var c := Engine(queueSize, packets, 1, 1, 1);
    OneLaneClogsIff(c);
    AllAccepted(c, |packets|);
    AllForwarded(c, Last(Accepted(c, 0, |packets|), 20002));
    hide CanClog;
  }
}
