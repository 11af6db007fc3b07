/**
 Progress of the pipeline: a global measure falls with every step that is not a timeout, and the only way a run
 can stop short is one exactly described state, which the synthetic path cannot reach.
 */
module PipelineProgress {
  import opened Routing
  import opened Pipeline
  import opened PipelineSafety
  import opened PipelineConservation

  function Length(qs: seq<seq<nat>>): nat {
    if qs == [] then 0 else |qs[0]| + Length(qs[1..])
  }

  function Staying(exited: seq<bool>): nat {
    if exited == [] then 0 else (if exited[0] then 0 else 1) + Staying(exited[1..])
  }

  lemma {:induction false} LengthUpdate(qs: seq<seq<nat>>, i: nat, q: seq<nat>)
    requires i < |qs|
    ensures Length(qs[i := q]) == Length(qs) - |qs[i]| + |q|
  {
    if i == 0 {
      assert qs[0 := q][1..] == qs[1..];
    } else {
      LengthUpdate(qs[1..], i - 1, q);
      assert qs[i := q][1..] == qs[1..][i - 1 := q];
    }
  }

  lemma {:induction false} StayingUpdate(exited: seq<bool>, i: nat)
    requires i < |exited| && !exited[i]
    ensures Staying(exited[i := true]) == Staying(exited) - 1
  {
    if i == 0 {
      assert exited[0 := true][1..] == exited[1..];
    } else {
      StayingUpdate(exited[1..], i - 1);
      assert exited[i := true][1..] == exited[1..][i - 1 := true];
    }
  }

  /** Hops every packet has still to make. */
  function Hops(c: Config, s: State): nat
    requires s.next <= |c.packets|
  {
    10 * (|c.packets| - s.next) + 9 * |s.raw| + 8 * Length(s.parserSlot) + 7 * Length(s.lbQueue) + 6 * Length(s.lbSlot)
    + 5 * Length(s.fpQueue) + 4 * Length(s.fpSlot) + 3 * Length(s.emitting) + 2 * |s.out| + |s.outSlot|
  }

  /** Threads still to exit. */
  function Threads(s: State): nat {
    (if s.readerDone then 0 else 1) + Staying(s.parserExited) + Staying(s.lbExited) + Staying(s.fpExited)
    + (if s.outExited then 0 else 1)
  }

  predicate InRange(c: Config, s: State) {
    s.next <= |c.packets| && s.pc <= c.DoneAt()
  }

  /** Remaining hops, plus threads to exit, plus statements the controlling thread has still to execute. */
  function Measure(c: Config, s: State): nat
    requires InRange(c, s)
  {
    Hops(c, s) + Threads(s) + (c.DoneAt() - s.pc)
  }

  lemma ParserHops(c: Config, s: State, step: Step)
    requires Shape(c, s) && Enabled(c, s, step)
    requires step.ParserPop? || step.ParserReject? || step.ParserPush?
    ensures Apply(c, s, step).next <= |c.packets| && Hops(c, Apply(c, s, step)) < Hops(c, s)
  {
    var i := step.i;
    LengthUpdate(s.parserSlot, i, if step.ParserPop? then [s.raw[0]] else []);
    if step.ParserPush? {
      var l := Balancer(c, s.parserSlot[i][0]);
      LengthUpdate(s.lbQueue, l, s.lbQueue[l] + s.parserSlot[i]);
    }
  }

  lemma BalancerHops(c: Config, s: State, step: Step)
    requires Shape(c, s) && Enabled(c, s, step)
    requires step.LbPop? || step.LbPush?
    ensures Apply(c, s, step).next <= |c.packets| && Hops(c, Apply(c, s, step)) < Hops(c, s)
  {
    var l := step.l;
    if step.LbPop? {
      LengthUpdate(s.lbSlot, l, [s.lbQueue[l][0]]);
      LengthUpdate(s.lbQueue, l, s.lbQueue[l][1..]);
    } else {
      LengthUpdate(s.lbSlot, l, []);
      var j := PoolTarget(c, l, s.lbSlot[l][0]);
      LengthUpdate(s.fpQueue, j, s.fpQueue[j] + s.lbSlot[l]);
    }
  }

  lemma FpPopHops(c: Config, s: State, j: nat)
    requires Shape(c, s) && Enabled(c, s, FpPop(j))
    ensures Apply(c, s, FpPop(j)).next <= |c.packets| && Hops(c, Apply(c, s, FpPop(j))) < Hops(c, s)
  {
    LengthUpdate(s.fpSlot, j, [s.fpQueue[j][0]]);
    LengthUpdate(s.fpQueue, j, s.fpQueue[j][1..]);
  }

  lemma FpProcessHops(c: Config, s: State, j: nat)
    requires Shape(c, s) && Enabled(c, s, FpProcess(j))
    ensures Apply(c, s, FpProcess(j)).next <= |c.packets|
            && Hops(c, Apply(c, s, FpProcess(j))) < Hops(c, s)
  {
    hide Forwards, Length;
    LengthUpdate(s.fpSlot, j, []);
    LengthUpdate(s.emitting, j, s.fpSlot[j]);
  }

  lemma FpEmitHops(c: Config, s: State, j: nat)
    requires Shape(c, s) && Enabled(c, s, FpEmit(j))
    ensures Apply(c, s, FpEmit(j)).next <= |c.packets| && Hops(c, Apply(c, s, FpEmit(j))) < Hops(c, s)
  {
    LengthUpdate(s.emitting, j, []);
  }

  /** These steps move a packet one hop on and touch neither threads nor the controlling thread. */
  predicate MovesPacket(step: Step) {
    || step.ReaderPush? || step.ParserPop? || step.ParserReject? || step.ParserPush? || step.LbPop? || step.LbPush?
    || step.FpPop? || step.FpProcess? || step.FpEmit? || step.OutPop? || step.OutWrite?
  }

  lemma PacketMoveDecreases(c: Config, s: State, step: Step)
    requires Shape(c, s) && Enabled(c, s, step) && MovesPacket(step)
    ensures Apply(c, s, step).next <= |c.packets| && Hops(c, Apply(c, s, step)) < Hops(c, s)
  {
    if step.ParserPop? || step.ParserReject? || step.ParserPush? {
      ParserHops(c, s, step);
    } else if step.LbPop? || step.LbPush? {
      BalancerHops(c, s, step);
    } else if step.FpPop? {
      FpPopHops(c, s, step.j);
    } else if step.FpProcess? {
      FpProcessHops(c, s, step.j);
    } else if step.FpEmit? {
      FpEmitHops(c, s, step.j);
    }
  }

  lemma PacketMoveKeepsThreads(c: Config, s: State, step: Step)
    requires Shape(c, s) && Enabled(c, s, step) && MovesPacket(step)
    ensures Threads(Apply(c, s, step)) == Threads(s) && Apply(c, s, step).pc == s.pc
  {
    hide Threads;
    if step.ReaderPush? || step.ParserPop? || step.ParserReject? || step.ParserPush? || step.LbPop? || step.LbPush? {
      UpstreamKeepsThreads(c, s, step);
    } else {
      DownstreamKeepsThreads(c, s, step);
    }
    SameThreads(s, Apply(c, s, step));
    hide Apply, Enabled;
  }

  lemma SameThreads(s: State, t: State)
    requires t.readerDone == s.readerDone && t.parserExited == s.parserExited && t.lbExited == s.lbExited
    requires t.fpExited == s.fpExited && t.outExited == s.outExited
    ensures Threads(t) == Threads(s)
  {
  }

  lemma UpstreamKeepsThreads(c: Config, s: State, step: Step)
    requires Shape(c, s) && Enabled(c, s, step)
    requires step.ReaderPush? || step.ParserPop? || step.ParserReject? || step.ParserPush? || step.LbPop?
             || step.LbPush?
    ensures var t := Apply(c, s, step);
            && t.readerDone == s.readerDone && t.parserExited == s.parserExited && t.lbExited == s.lbExited
            && t.fpExited == s.fpExited && t.outExited == s.outExited && t.pc == s.pc
  {
  }

  lemma DownstreamKeepsThreads(c: Config, s: State, step: Step)
    requires Shape(c, s) && Enabled(c, s, step)
    requires step.FpPop? || step.FpProcess? || step.FpEmit? || step.OutPop? || step.OutWrite?
    ensures var t := Apply(c, s, step);
            && t.readerDone == s.readerDone && t.parserExited == s.parserExited && t.lbExited == s.lbExited
            && t.fpExited == s.fpExited && t.outExited == s.outExited && t.pc == s.pc
  {
  }

  lemma ThreadMoveDecreases(c: Config, s: State, step: Step)
    requires Shape(c, s) && Enabled(c, s, step) && !MovesPacket(step) && !step.TimeOut?
    ensures var t := Apply(c, s, step);
            t.next == s.next && Hops(c, t) == Hops(c, s) && Threads(t) - t.pc < Threads(s) - s.pc
    ensures s.pc <= c.DoneAt() ==> Apply(c, s, step).pc <= c.DoneAt()
  {
    match step
    case ParserExit(i) => StayingUpdate(s.parserExited, i);
    case LbExit(l) => StayingUpdate(s.lbExited, l);
    case FpExit(j) => StayingUpdate(s.fpExited, j);
    case _ =>
  }

  /** Every step but a timeout makes the measure fall. */
  lemma StepDecreases(c: Config, s: State, step: Step)
    requires Shape(c, s) && InRange(c, s) && Enabled(c, s, step) && !step.TimeOut?
    ensures InRange(c, Apply(c, s, step))
    ensures Measure(c, Apply(c, s, step)) < Measure(c, s)
  {
    if MovesPacket(step) {
      PacketMoveDecreases(c, s, step);
      PacketMoveKeepsThreads(c, s, step);
    } else {
      ThreadMoveDecreases(c, s, step);
    }
  }

  /** Steps of a run that are not timeouts. */
  function Moves(steps: seq<Step>): nat {
    if steps == [] then 0
    else Moves(steps[..|steps| - 1]) + if steps[|steps| - 1].TimeOut? then 0 else 1
  }

  lemma MeasureOfStep(c: Config, s: State, step: Step, t: State)
    requires StepTo(c, s, step, t) && InRange(c, s)
    ensures InRange(c, t) && Measure(c, t) + (if step.TimeOut? then 0 else 1) <= Measure(c, s)
  {
    if !step.TimeOut? { StepDecreases(c, s, step); }
  }

  /** No run makes more moves than the measure of its first state: there is no way to go on moving forever. */
  lemma {:induction false} MovesAreBounded(c: Config, states: seq<State>, steps: seq<Step>, n: nat)
    requires IsRun(c, states, steps) && n < |states|
    ensures InRange(c, states[0]) && InRange(c, states[n])
    ensures Moves(steps[..n]) + Measure(c, states[n]) <= Measure(c, states[0])
  {
    if n > 0 {
      MovesAreBounded(c, states, steps, n - 1);
      assert steps[..n][..n - 1] == steps[..n - 1];
      MeasureOfStep(c, states[n - 1], steps[n - 1], states[n]);
    }
  }

  // ---------------------------------------------------------------- deadlock

  /** The output thread has left, its queue is full, and a fast path is blocked pushing to it. */
  predicate Clogged(c: Config, s: State) {
    s.outExited && |s.out| >= c.outCapacity && exists j :: 0 <= j < |s.emitting| && s.emitting[j] != []
  }

  predicate CanMove(c: Config, s: State, step: Step) {
    Shape(c, s) && !step.TimeOut? && Enabled(c, s, step)
  }

  lemma DownstreamMove(c: Config, s: State) returns (step: Step)
    requires Safe(c, s) && !Clogged(c, s)
    requires s.outSlot != [] || (!s.outExited && s.out != [])
             || (exists j :: 0 <= j < c.FastPaths() && (s.emitting[j] != [] || s.fpSlot[j] != [] || s.fpQueue[j] != []))
    ensures CanMove(c, s, step)
  {
    if s.outSlot != [] { return OutWrite; }
    if !s.outExited && s.out != [] { return OutPop; }
    var j :| 0 <= j < c.FastPaths() && (s.emitting[j] != [] || s.fpSlot[j] != [] || s.fpQueue[j] != []);
    if s.emitting[j] != [] { return FpEmit(j); }
    if s.fpSlot[j] != [] { return FpProcess(j); }
    return FpPop(j);
  }

  lemma UpstreamMove(c: Config, s: State) returns (step: Step)
    requires Safe(c, s)
    requires forall j :: 0 <= j < c.FastPaths() ==> s.fpQueue[j] == []
    requires !s.readerDone || s.raw != [] || (exists i :: 0 <= i < c.parsers && s.parserSlot[i] != [])
             || (exists l :: 0 <= l < c.balancers && (s.lbSlot[l] != [] || s.lbQueue[l] != []))
    ensures CanMove(c, s, step)
  {
    if l :| 0 <= l < c.balancers && s.lbSlot[l] != [] {
      PoolTargetInRange(c, l, s.lbSlot[l][0]);
      return LbPush(l);
    }
    if l :| 0 <= l < c.balancers && s.lbQueue[l] != [] { return LbPop(l); }
    if i :| 0 <= i < c.parsers && s.parserSlot[i] != [] {
      return if c.packets[s.parserSlot[i][0]].parses then ParserPush(i) else ParserReject(i);
    }
    if s.raw != [] {
      assert !s.parserExited[0];
      return ParserPop(0);
    }
    return if s.next < |c.packets| then ReaderPush else ReaderExit;
  }

  /** With every queue drained, the controlling thread or the worker it waits for can go on. */
  lemma ShutdownMove(c: Config, s: State) returns (step: Step)
    requires Safe(c, s) && s.pc < c.DoneAt() && s.readerDone && s.raw == []
    requires s.outSlot == [] && (s.outExited || s.out == [])
    requires forall i :: 0 <= i < c.parsers ==> s.parserSlot[i] == []
    requires forall l :: 0 <= l < c.balancers ==> s.lbSlot[l] == [] && s.lbQueue[l] == []
    requires forall j :: 0 <= j < c.FastPaths() ==> s.emitting[j] == [] && s.fpSlot[j] == [] && s.fpQueue[j] == []
    ensures CanMove(c, s, step)
  {
    if i :| 0 <= i < c.parsers && s.pc == c.ParserJoinAt(i) && !s.parserExited[i] { return ParserExit(i); }
    if l :| 0 <= l < c.balancers && s.pc == c.LbJoinAt(l) && !s.lbExited[l] { return LbExit(l); }
    if j :| 0 <= j < c.FastPaths() && s.pc == c.FpJoinAt(j) && !s.fpExited[j] { return FpExit(j); }
    if s.pc == c.OutJoinAt() && !s.outExited { return OutExit; }
    return Control;
  }

  /** A safe unfinished state that is not clogged always has a move that is not a timeout. */
  lemma MoveExists(c: Config, s: State) returns (step: Step)
    requires Safe(c, s) && s.pc < c.DoneAt() && !Clogged(c, s)
    ensures CanMove(c, s, step)
  {
    if s.outSlot != [] || (!s.outExited && s.out != [])
      || (exists j :: 0 <= j < c.FastPaths() && (s.emitting[j] != [] || s.fpSlot[j] != [] || s.fpQueue[j] != [])) {
      step := DownstreamMove(c, s);
    } else if !s.readerDone || s.raw != [] || (exists i :: 0 <= i < c.parsers && s.parserSlot[i] != [])
              || (exists l :: 0 <= l < c.balancers && (s.lbSlot[l] != [] || s.lbQueue[l] != [])) {
      step := UpstreamMove(c, s);
    } else {
      step := ShutdownMove(c, s);
    }
  }

  lemma CloggedMeansUnfinished(c: Config, s: State)
    requires Safe(c, s) && Clogged(c, s)
    ensures s.pc < c.OutShutAt() && !OutShut(c, s)
  {
    var j :| 0 <= j < |s.emitting| && s.emitting[j] != [];
    assert !s.fpExited[j] && s.pc <= c.FpJoinAt(j);
  }

  /** Clogging is final: whatever the threads do, the blocked fast path stays blocked and the run unfinished. */
  lemma CloggedForever(c: Config, s: State, step: Step)
    requires Safe(c, s) && Clogged(c, s) && Enabled(c, s, step)
    ensures Clogged(c, Apply(c, s, step))
  {
    CloggedMeansUnfinished(c, s);
    var j :| 0 <= j < |s.emitting| && s.emitting[j] != [];
    assert Apply(c, s, step).emitting[j] != [];
  }

  /**
   Exactly when a run is stuck: a reachable unfinished state has no move but timeouts from some point on if it
   is clogged, and has a move now if it is not.
   */
  lemma StuckIffClogged(c: Config, states: seq<State>, steps: seq<Step>, n: nat)
    requires IsRun(c, states, steps) && n < |states| && states[n].pc < c.DoneAt()
    ensures !Clogged(c, states[n]) ==> exists step :: CanMove(c, states[n], step)
    ensures Clogged(c, states[n]) ==>
              forall k :: n <= k < |states| ==> states[k].pc < c.DoneAt() && Clogged(c, states[k])
  {
    RunSafe(c, states, steps, n);
    if Clogged(c, states[n]) {
      forall k | n <= k < |states|
        ensures states[k].pc < c.DoneAt() && Clogged(c, states[k])
      {
        CloggedStays(c, states, steps, n, k);
      }
    } else {
      var step := MoveExists(c, states[n]);
    }
  }

  lemma {:induction false} CloggedStays(c: Config, states: seq<State>, steps: seq<Step>, n: nat, k: nat)
    requires IsRun(c, states, steps) && n <= k < |states| && Clogged(c, states[n])
    ensures Clogged(c, states[k]) && states[k].pc < c.DoneAt()
  {
    hide Enabled, Apply;
    RunSafe(c, states, steps, k);
    if n < k {
      CloggedStays(c, states, steps, n, k - 1);
      RunSafe(c, states, steps, k - 1);
      assert StepTo(c, states[k - 1], steps[k - 1], states[k]);
      CloggedForever(c, states[k - 1], steps[k - 1]);
    }
    CloggedMeansUnfinished(c, states[k]);
  }

  // ---------------------------------------------------------------- runs that cannot clog

  /** Packets between the reader and the fast paths' verdicts, by place. */
  function Inside(s: State): nat {
    |s.raw| + Length(s.parserSlot) + |s.errors| + Length(s.lbQueue) + Length(s.lbSlot)
    + Length(s.fpQueue) + Length(s.fpSlot) + |s.refused|
  }

  /** No more packets are forwarded than were read, and none is on its way out that was not forwarded. */
  predicate Counted(c: Config, s: State) {
    && Inside(s) + |s.forwarded| + |s.dropped| == s.next
    && (c.fileOpen ==> |s.forwarded| == |s.written| + |s.outSlot| + |s.out| + Length(s.emitting))
  }

  lemma ParserCounted(c: Config, s: State, step: Step)
    requires Shape(c, s) && Enabled(c, s, step) && Counted(c, s)
    requires step.ParserPop? || step.ParserReject? || step.ParserPush?
    ensures Counted(c, Apply(c, s, step))
  {
    var i := step.i;
    LengthUpdate(s.parserSlot, i, if step.ParserPop? then [s.raw[0]] else []);
    if step.ParserPush? {
      var l := Balancer(c, s.parserSlot[i][0]);
      LengthUpdate(s.lbQueue, l, s.lbQueue[l] + s.parserSlot[i]);
    }
  }

  lemma BalancerCounted(c: Config, s: State, step: Step)
    requires Shape(c, s) && Enabled(c, s, step) && Counted(c, s) && (step.LbPop? || step.LbPush?)
    ensures Counted(c, Apply(c, s, step))
  {
    var l := step.l;
    if step.LbPop? {
      LengthUpdate(s.lbSlot, l, [s.lbQueue[l][0]]);
      LengthUpdate(s.lbQueue, l, s.lbQueue[l][1..]);
    } else {
      var j := PoolTarget(c, l, s.lbSlot[l][0]);
      LengthUpdate(s.lbSlot, l, []);
      LengthUpdate(s.fpQueue, j, s.fpQueue[j] + s.lbSlot[l]);
    }
  }

  lemma FpPopCounted(c: Config, s: State, j: nat)
    requires Shape(c, s) && Enabled(c, s, FpPop(j)) && Counted(c, s)
    ensures Counted(c, Apply(c, s, FpPop(j)))
  {
    LengthUpdate(s.fpSlot, j, [s.fpQueue[j][0]]);
    LengthUpdate(s.fpQueue, j, s.fpQueue[j][1..]);
  }

  lemma FpProcessCounted(c: Config, s: State, j: nat)
    requires Shape(c, s) && Enabled(c, s, FpProcess(j)) && Counted(c, s)
    ensures Counted(c, Apply(c, s, FpProcess(j)))
  {
    hide Forwards, Length;
    LengthUpdate(s.fpSlot, j, []);
    LengthUpdate(s.emitting, j, s.fpSlot[j]);
  }

  lemma FpEmitCounted(c: Config, s: State, j: nat)
    requires Safe(c, s) && Enabled(c, s, FpEmit(j)) && Counted(c, s)
    ensures Counted(c, Apply(c, s, FpEmit(j)))
  {
    FpEmitSafe(c, s, j);
    LengthUpdate(s.emitting, j, []);
  }

  lemma OtherCounted(c: Config, s: State, step: Step)
    requires Shape(c, s) && Enabled(c, s, step) && Counted(c, s)
    requires !MovesPacket(step) || step.ReaderPush? || step.OutPop? || step.OutWrite?
    ensures Counted(c, Apply(c, s, step))
  {
  }

  lemma StepCounted(c: Config, s: State, step: Step)
    requires Safe(c, s) && Enabled(c, s, step) && Counted(c, s)
    ensures Counted(c, Apply(c, s, step))
  {
    if step.ParserPop? || step.ParserReject? || step.ParserPush? {
      ParserCounted(c, s, step);
    } else if step.LbPop? || step.LbPush? {
      BalancerCounted(c, s, step);
    } else if step.FpPop? {
      FpPopCounted(c, s, step.j);
    } else if step.FpProcess? {
      FpProcessCounted(c, s, step.j);
    } else if step.FpEmit? {
      FpEmitCounted(c, s, step.j);
    } else {
      OtherCounted(c, s, step);
    }
  }

  lemma LengthOfEmpty(n: nat)
    ensures Length(Replicate(n, [])) == 0
  {
    LengthZero(Replicate(n, []));
  }

  lemma {:induction false} LengthAtLeast(qs: seq<seq<nat>>, i: nat)
    requires i < |qs|
    ensures |qs[i]| <= Length(qs)
  {
    if i > 0 { LengthAtLeast(qs[1..], i - 1); }
  }

  lemma {:induction false} RunCounted(c: Config, states: seq<State>, steps: seq<Step>, n: nat)
    requires IsRun(c, states, steps) && n < |states|
    ensures Counted(c, states[n])
  {
    if n == 0 {
      LengthOfEmpty(c.parsers);
      LengthOfEmpty(c.balancers);
      LengthOfEmpty(c.FastPaths());
    } else {
      RunCounted(c, states, steps, n - 1);
      RunSafe(c, states, steps, n - 1);
      assert StepTo(c, states[n - 1], steps[n - 1], states[n]);
      StepCounted(c, states[n - 1], steps[n - 1]);
    }
  }

  /** A packet that parses and that its fast path forwards. */
  predicate GoesOut(c: Config, p: nat) {
    p < |c.packets| && c.packets[p].parses && c.packets[p].forwarded
  }

  /** Packets below n that go out. */
  function Outgoing(c: Config, n: nat): nat
    requires n <= |c.packets|
  {
    if n == 0 then 0 else Outgoing(c, n - 1) + if GoesOut(c, n - 1) then 1 else 0
  }

  function OutgoingSet(c: Config, n: nat): (ps: set<nat>)
    requires n <= |c.packets|
    ensures forall p: nat :: p in ps <==> p < n && GoesOut(c, p)
    ensures |ps| == Outgoing(c, n)
  {
    if n == 0 then {}
    else if GoesOut(c, n - 1) then OutgoingSet(c, n - 1) + {n - 1}
    else OutgoingSet(c, n - 1)
  }

  /** A list without repetitions of elements of a set is no longer than the set. */
  lemma {:induction false} NoLongerThan(q: seq<nat>, ps: set<nat>)
    requires forall p :: Occ(q, p) <= if p in ps then 1 else 0
    ensures |q| <= |ps|
  {
    if q != [] {
      var rest, last := q[..|q| - 1], q[|q| - 1];
      assert q == rest + [last];
      assert Occ(q, last) >= 1;
      forall p
        ensures Occ(rest, p) <= if p in ps - {last} then 1 else 0
      {
        OccAppend(rest, [last], p);
        assert Occ(q, p) <= if p in ps then 1 else 0;
      }
      NoLongerThan(rest, ps - {last});
    }
  }

  /** Only packets that parse and have that verdict are forwarded, each once. */
  lemma ForwardedGoOut(c: Config, states: seq<State>, steps: seq<Step>, n: nat)
    requires IsRun(c, states, steps) && n < |states|
    ensures |states[n].forwarded| <= Outgoing(c, |c.packets|)
  {
    var s := states[n];
    RunSafe(c, states, steps, n);
    RunKeepsVerdicts(c, states, steps, n);
    forall p
      ensures Occ(s.forwarded, p) <= if p in OutgoingSet(c, |c.packets|) then 1 else 0
    {
      ForwardedIsAccounted(c, states, steps, n, p);
      ExactlyOnePlace(c, states, steps, n, p);
      if p !in OutgoingSet(c, |c.packets|) { NotForwarded(c, s, p); }
    }
    NoLongerThan(s.forwarded, OutgoingSet(c, |c.packets|));
  }

  lemma NotForwarded(c: Config, s: State, p: nat)
    requires Safe(c, s) && VerdictsKept(c, s) && Accounted(c, s, p) && !GoesOut(c, p)
    ensures Occ(s.forwarded, p) == 0
  {
    if Forwards(c, p) {
      TotalAbsent(s.processed, p);
    } else {
      assert p !in s.forwarded;
    }
  }

  /** Without an output file, or with an output queue that can hold every packet that goes out, no run ever clogs. */
  lemma NeverClogs(c: Config, states: seq<State>, steps: seq<Step>, n: nat)
    requires IsRun(c, states, steps) && n < |states|
    requires !c.fileOpen || Outgoing(c, |c.packets|) <= c.outCapacity
    ensures !Clogged(c, states[n])
  {
    RunSafe(c, states, steps, n);
    RunCounted(c, states, steps, n);
    ForwardedGoOut(c, states, steps, n);
    var s := states[n];
    if Clogged(c, s) {
      var j :| 0 <= j < |s.emitting| && s.emitting[j] != [];
      LengthAtLeast(s.emitting, j);
      assert false;
    }
  }

  /**
   Progress: without an output file (the synthetic path), or with an output queue that can hold every packet that
   goes out, every reachable unfinished state has a move that is not a timeout. With MovesAreBounded, every run in
   which enabled moves are eventually taken finishes.
   */
  lemma NoDeadlock(c: Config, states: seq<State>, steps: seq<Step>, n: nat)
    requires IsRun(c, states, steps) && n < |states| && states[n].pc < c.DoneAt()
    requires !c.fileOpen || Outgoing(c, |c.packets|) <= c.outCapacity
    ensures exists step :: CanMove(c, states[n], step)
  {
    NeverClogs(c, states, steps, n);
    StuckIffClogged(c, states, steps, n);
  }

  /** A finished run has emptied every queue and slot upstream of the output and stopped every thread. */
  lemma FinishedIsDrained(c: Config, states: seq<State>, steps: seq<Step>, n: nat)
    requires IsRun(c, states, steps) && n < |states| && states[n].pc == c.DoneAt()
    ensures var s := states[n];
            && s.raw == [] && s.next == |c.packets| && s.outExited
            && Length(s.parserSlot) == Length(s.lbQueue) == Length(s.lbSlot) == Length(s.fpQueue) == Length(s.fpSlot)
               == Length(s.emitting) == 0
            && Staying(s.parserExited) == Staying(s.lbExited) == Staying(s.fpExited) == 0
  {
    RunSafe(c, states, steps, n);
    var s := states[n];
    JoinedMeansDrained(c, s);
    LengthZero(s.parserSlot);
    LengthZero(s.lbQueue);
    LengthZero(s.lbSlot);
    LengthZero(s.fpQueue);
    LengthZero(s.fpSlot);
    LengthZero(s.emitting);
    StayingZero(s.parserExited);
    StayingZero(s.lbExited);
    StayingZero(s.fpExited);
  }

  lemma {:induction false} LengthZero(qs: seq<seq<nat>>)
    requires forall i :: 0 <= i < |qs| ==> qs[i] == []
    ensures Length(qs) == 0
  {
    if qs != [] { LengthZero(qs[1..]); }
  }

  lemma {:induction false} StayingZero(exited: seq<bool>)
    requires forall i :: 0 <= i < |exited| ==> exited[i]
    ensures Staying(exited) == 0
  {
    if exited != [] { StayingZero(exited[1..]); }
  }
}
