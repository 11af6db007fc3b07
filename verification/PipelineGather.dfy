/**
 For every deal of the input, a run that holds back as much as it can: packets stay in a balancer's queue, then in
 the balancer's hands, then before the fast path and in its hands, and only then is one let through.
 */
module PipelineGather {
  import opened Pipeline
  import opened PipelineSafety
  import opened PipelineConservation
  import opened PipelineProgress
  import opened PipelineOwnership
  import opened PipelineDeals
  import opened PipelineBacklog

  /** States some run reaches. */
  ghost predicate Reachable(c: Config, s: State)
    ensures Reachable(c, s) ==> Sound(c, s) && Safe(c, s)
  {
    ReachableIsSound(c, s);
    exists states, steps :: IsRun(c, states, steps) && states[|steps|] == s
  }

  lemma ReachableIsSound(c: Config, s: State)
    ensures (exists states, steps :: IsRun(c, states, steps) && states[|steps|] == s) ==> Sound(c, s) && Safe(c, s)
  {
    hide StepTo, Start, Safe, InOrder, VerdictsKept, LogEnds;
    if states, steps :| IsRun(c, states, steps) && states[|steps|] == s {
      RunSound(c, states, steps, |steps|);
    }
  }

  lemma OfReachable(c: Config, s: State)
    requires Reachable(c, s)
    ensures Sound(c, s) && Safe(c, s) && VerdictsKept(c, s) && Shape(c, s) && c.Valid() && |s.lbLog| == c.balancers
  {
  }

  lemma StartReachable(c: Config)
    requires c.Valid()
    ensures Reachable(c, Start(c))
  {
    hide Start, Sound, Safe;
    assert IsRun(c, [Start(c)], []);
  }

  lemma RunGoesOn(c: Config, s: State, step: Step, t: State)
    requires Reachable(c, s) && StepTo(c, s, step, t)
    ensures Reachable(c, t)
  {
    hide StepTo, Start, Sound, Safe;
    var states, steps :| IsRun(c, states, steps) && states[|steps|] == s;
    var states', steps' := states + [t], steps + [step];
    forall k {:trigger steps'[k]} | 0 <= k < |steps'|
      ensures StepTo(c, states'[k], steps'[k], states'[k + 1])
    {
      if k < |steps| { assert StepTo(c, states[k], steps[k], states[k + 1]); }
    }
    assert IsRun(c, states', steps') && states'[|steps'|] == t;
  }

  /** A run goes on by any enabled step. */
  lemma Go(c: Config, s: State, step: Step) returns (t: State)
    requires Reachable(c, s) && Enabled(c, s, step)
    ensures t == Apply(c, s, step) && Reachable(c, t)
  {
    t := Apply(c, s, step);
    RunGoesOn(c, s, step, t);
    hide *;
  }

  // ---------------------------------------------------------------- holding back

  /** Nothing is on its way out, the raw queue is empty, and the reader has not been told to stop. */
  predicate Calm(s: State) {
    && s.raw == [] && s.out == [] && s.outSlot == [] && s.pc == 0 && !s.readerDone
    && forall j :: 0 <= j < |s.emitting| ==> s.emitting[j] == []
  }

  /** A balancer takes a packet in its hands only when its queue is full. */
  predicate BalancerFull(c: Config, s: State, l: nat)
    requires Shape(c, s) && l < c.balancers
  {
    s.lbSlot[l] != [] ==> |s.lbQueue[l]| == c.lbCapacity
  }

  /** A fast path takes a packet only when its queue is full, and is done with one only to take the next. */
  predicate FastPathFull(c: Config, s: State, j: nat)
    requires Shape(c, s) && j < c.FastPaths()
  {
    (s.fpSlot[j] != [] ==> |s.fpQueue[j]| == c.fpCapacity) && (s.processed[j] != [] ==> s.fpSlot[j] != [])
  }

  /** A balancer passes packets on only to take others. */
  predicate NoneAhead(c: Config, s: State, j: nat)
    requires Shape(c, s) && j < c.FastPaths()
  {
    s.lbSlot[Owner(c, j)] == [] ==> s.fpQueue[j] == [] && s.fpSlot[j] == [] && s.processed[j] == []
  }

  predicate Greedy(c: Config, s: State)
    requires Shape(c, s)
  {
    && Calm(s)
    && (forall l :: 0 <= l < c.balancers ==> BalancerFull(c, s, l))
    && (forall j :: 0 <= j < c.FastPaths() ==> FastPathFull(c, s, j))
    && (forall j :: 0 <= j < c.FastPaths() ==> NoneAhead(c, s, j))
  }

  /** What the fast paths and the output leave alone. */
  predicate SameFront(s: State, t: State) {
    t.next == s.next && t.parserSlot == s.parserSlot && t.lbQueue == s.lbQueue && t.lbLog == s.lbLog
  }

  /** A packet processed and to be forwarded goes to the output queue. */
  lemma Emitted(c: Config, s: State, j: nat, rest: seq<seq<nat>>) returns (t: State)
    requires Reachable(c, s) && j < |s.emitting| == |rest| && |s.emitting[j]| == 1
             && s.emitting == rest[j := s.emitting[j]]
    requires rest[j] == [] && s.out == [] && s.pc == 0
    ensures Reachable(c, t)
    ensures t == s.(emitting := rest, out := s.emitting[j])
  {
    hide Sound, Ordered, Routed, Bounded;
    assert s.emitting[j := []] == rest && [] + s.emitting[j] == s.emitting[j];
    t := Go(c, s, FpEmit(j));
  }

  /** A packet in the output queue is written. */
  lemma Written(c: Config, s: State) returns (t: State)
    requires Reachable(c, s) && |s.out| == 1 && s.outSlot == [] && s.pc == 0
    ensures Reachable(c, t)
    ensures t == s.(out := [], written := s.written + s.out)
  {
    OutputRuns(c, s);
    hide Sound, Ordered, Routed, Bounded;
    assert s.out[1..] == [] && [s.out[0]] == s.out;
    var s1 := Go(c, s, OutPop);
    t := Go(c, s1, OutWrite);
  }

  lemma OutputRuns(c: Config, s: State)
    requires Safe(c, s) && s.pc == 0
    ensures !s.outExited
  {
  }

  /** A fast path processes the packet in its hands; what it forwards is written. */
  lemma Done(c: Config, s: State, j: nat) returns (t: State)
    requires Reachable(c, s) && Calm(s) && c.fileOpen && j < c.FastPaths() && s.fpSlot[j] != []
    ensures Reachable(c, t) && Calm(t) && SameFront(s, t) && t.lbSlot == s.lbSlot && t.fpQueue == s.fpQueue
    ensures t.fpSlot == s.fpSlot[j := []] && t.processed == s.processed[j := s.processed[j] + s.fpSlot[j]]
  {
    hide Sound, Ordered, Routed, Bounded;
    var s1 := Go(c, s, FpProcess(j));
    if Forwards(c, s.fpSlot[j][0]) {
      assert s1.emitting == s.emitting[j := s.fpSlot[j]];
      var s2 := Emitted(c, s1, j, s.emitting);
      t := Written(c, s2);
    } else {
      t := s1;
    }
  }

  /** A fast path with a full queue takes the next packet. */
  lemma Freed(c: Config, s: State, j: nat) returns (t: State)
    requires Reachable(c, s) && Calm(s) && c.fileOpen && j < c.FastPaths() && |s.fpQueue[j]| == c.fpCapacity
    ensures Reachable(c, t) && Calm(t) && SameFront(s, t) && t.lbSlot == s.lbSlot
    ensures t.fpQueue == s.fpQueue[j := s.fpQueue[j][1..]] && t.fpSlot == s.fpSlot[j := [s.fpQueue[j][0]]]
    ensures t.processed == s.processed[j := s.processed[j] + s.fpSlot[j]]
  {
    hide Sound, Ordered, Routed, Bounded;
    var s1 := s;
    if s.fpSlot[j] != [] {
      s1 := Done(c, s, j);
    } else {
      assert s.processed[j] + s.fpSlot[j] == s.processed[j];
    }
    FastPathRuns(c, s1, j);
    t := Go(c, s1, FpPop(j));
    assert t.fpSlot == s.fpSlot[j := [s.fpQueue[j][0]]];
  }

  lemma FastPathRuns(c: Config, s: State, j: nat)
    requires Safe(c, s) && s.pc == 0 && j < c.FastPaths()
    ensures !s.fpExited[j]
  {
  }

  /** What belongs to balancers other than l. */
  predicate SameElsewhere(c: Config, s: State, t: State, l: nat)
    requires Shape(c, s) && Shape(c, t)
  {
    forall j :: 0 <= j < c.FastPaths() && Owner(c, j) != l ==>
      t.fpQueue[j] == s.fpQueue[j] && t.fpSlot[j] == s.fpSlot[j] && t.processed[j] == s.processed[j]
  }

  /** The packet in a balancer's hands goes to its fast path's queue. */
  lemma Pushed(c: Config, s: State, l: nat, j: nat) returns (t: State)
    requires Reachable(c, s) && s.pc == 0 && l < c.balancers && s.lbSlot[l] != []
    requires j == PoolTarget(c, l, s.lbSlot[l][0]) && j < c.FastPaths() && |s.fpQueue[j]| < c.fpCapacity
    ensures Reachable(c, t)
    ensures t == s.(lbSlot := s.lbSlot[l := []], fpQueue := s.fpQueue[j := s.fpQueue[j] + s.lbSlot[l]])
  {
    hide Sound, Ordered, Routed, Bounded;
    t := Go(c, s, LbPush(l));
  }

  /** The fast path for the packet in a balancer's hands is one of the balancer's own. */
  lemma Target(c: Config, s: State, l: nat) returns (j: nat)
    requires Safe(c, s) && l < c.balancers && s.lbSlot[l] != []
    ensures j == PoolTarget(c, l, s.lbSlot[l][0]) && j < c.FastPaths() && Owner(c, j) == l
    ensures |s.fpQueue[j]| <= c.fpCapacity
  {
    var p := s.lbSlot[l][0];
    BalancedSlot(c, s, l);
    PoolTargetInRange(c, l, p);
    OwnerIsBalancer(c, p);
    j := PoolTarget(c, l, p);
  }

  lemma SameFullness(c: Config, s: State, t: State, j: nat)
    requires Shape(c, s) && Shape(c, t) && j < c.FastPaths() && FastPathFull(c, s, j)
    requires t.fpQueue[j] == s.fpQueue[j] && t.fpSlot[j] == s.fpSlot[j] && t.processed[j] == s.processed[j]
    ensures FastPathFull(c, t, j)
  {
  }

  /** A balancer passes on the packet in its hands. */
  lemma Passed(c: Config, s: State, l: nat) returns (t: State)
    requires Reachable(c, s) && Calm(s) && c.fileOpen && l < c.balancers && s.lbSlot[l] != []
    requires forall j :: 0 <= j < c.FastPaths() ==> FastPathFull(c, s, j)
    ensures Reachable(c, t) && Calm(t) && SameFront(s, t) && t.lbSlot == s.lbSlot[l := []]
    ensures SameElsewhere(c, s, t, l)
    ensures forall j :: 0 <= j < c.FastPaths() ==> FastPathFull(c, t, j)
  {
    var j := Target(c, s, l);
    t := PassedTo(c, s, l, j);
    hide *;
    OfReachable(c, s);
    OfReachable(c, t);
    FullElsewhere(c, s, t, j);
    OthersUntouched(c, s, t, j, l);
  }

  /** Where one fast path changed, the others are as full as they were. */
  lemma FullElsewhere(c: Config, s: State, t: State, j: nat)
    requires Shape(c, s) && Shape(c, t) && OnlyAt(c, s, t, j) && j < c.FastPaths() && FastPathFull(c, t, j)
    requires forall k :: 0 <= k < c.FastPaths() ==> FastPathFull(c, s, k)
    ensures forall k :: 0 <= k < c.FastPaths() ==> FastPathFull(c, t, k)
  {
    forall k | 0 <= k < c.FastPaths()
      ensures FastPathFull(c, t, k)
    {
      if k != j { SameFullness(c, s, t, k); }
    }
  }

  lemma OthersUntouched(c: Config, s: State, t: State, j: nat, l: nat)
    requires Shape(c, s) && Shape(c, t) && OnlyAt(c, s, t, j) && j < c.FastPaths() && Owner(c, j) == l
    ensures SameElsewhere(c, s, t, l)
  {
    hide Owner;
  }

  predicate OnlyAt(c: Config, s: State, t: State, j: nat)
    requires Shape(c, s) && Shape(c, t)
  {
    forall k :: 0 <= k < c.FastPaths() && k != j ==>
      t.fpQueue[k] == s.fpQueue[k] && t.fpSlot[k] == s.fpSlot[k] && t.processed[k] == s.processed[k]
  }

  lemma PassedTo(c: Config, s: State, l: nat, j: nat) returns (t: State)
    requires Reachable(c, s) && Calm(s) && c.fileOpen && l < c.balancers && s.lbSlot[l] != []
    requires j == PoolTarget(c, l, s.lbSlot[l][0]) && j < c.FastPaths() && |s.fpQueue[j]| <= c.fpCapacity
    requires FastPathFull(c, s, j)
    ensures Reachable(c, t) && Calm(t) && SameFront(s, t) && t.lbSlot == s.lbSlot[l := []]
    ensures OnlyAt(c, s, t, j) && FastPathFull(c, t, j)
  {
    hide Sound, Ordered, Routed, Bounded, PoolTarget, FastPathFull;
    if |s.fpQueue[j]| == c.fpCapacity {
      var s1 := Freed(c, s, j);
      t := Pushed(c, s1, l, j);
    } else {
      t := Pushed(c, s, l, j);
    }
    FullAgain(c, s, t, j);
  }

  /** A full fast path stays full when it takes one packet and gets one; one that is not full is idle. */
  lemma FullAgain(c: Config, s: State, t: State, j: nat)
    requires Shape(c, s) && Shape(c, t) && j < c.FastPaths() && FastPathFull(c, s, j)
    requires if |s.fpQueue[j]| == c.fpCapacity then |t.fpQueue[j]| == c.fpCapacity && t.fpSlot[j] != []
             else t.fpSlot[j] == s.fpSlot[j] && t.processed[j] == s.processed[j]
    ensures FastPathFull(c, t, j)
  {
  }

  /** A balancer with a full queue takes the next packet. */
  lemma RoomMade(c: Config, s: State, l: nat) returns (t: State)
    requires Reachable(c, s) && Greedy(c, s) && c.fileOpen && l < c.balancers && |s.lbQueue[l]| == c.lbCapacity
    ensures Reachable(c, t) && Calm(t) && t.next == s.next && t.parserSlot == s.parserSlot && t.lbLog == s.lbLog
    ensures t.lbQueue == s.lbQueue[l := s.lbQueue[l][1..]] && t.lbSlot == s.lbSlot[l := [s.lbQueue[l][0]]]
    ensures SameElsewhere(c, s, t, l)
    ensures forall j :: 0 <= j < c.FastPaths() ==> FastPathFull(c, t, j)
  {
    hide Sound, Ordered, Routed, Bounded, Owner, Balancer, FastPathFull;
    var s1 := s;
    if s.lbSlot[l] != [] {
      s1 := Passed(c, s, l);
    }
    BalancerRuns(c, s1, l);
    t := Go(c, s1, LbPop(l));
    SameFullnesses(c, s1, t);
  }

  lemma SameFullnesses(c: Config, s: State, t: State)
    requires Shape(c, s) && Shape(c, t) && forall j :: 0 <= j < c.FastPaths() ==> FastPathFull(c, s, j)
    requires t.fpQueue == s.fpQueue && t.fpSlot == s.fpSlot && t.processed == s.processed
    ensures forall j :: 0 <= j < c.FastPaths() ==> FastPathFull(c, t, j)
  {
    forall j | 0 <= j < c.FastPaths()
      ensures FastPathFull(c, t, j)
    {
      SameFullness(c, s, t, j);
    }
  }

  lemma BalancerRuns(c: Config, s: State, l: nat)
    requires Safe(c, s) && s.pc == 0 && l < c.balancers
    ensures !s.lbExited[l]
  {
  }

  lemma ParserRuns(c: Config, s: State, i: nat)
    requires Safe(c, s) && s.pc == 0 && i < c.parsers
    ensures !s.parserExited[i]
  {
  }

  // ---------------------------------------------------------------- every deal

  /** A run that has dealt as f says and holds back what it can. */
  ghost predicate Gathered(c: Config, s: State, f: Front) {
    Reachable(c, s) && Greedy(c, s) && f == Front(s.next, s.parserSlot, s.lbLog)
  }

  /** A step before the balancers' queues. */
  lemma StillGreedy(c: Config, s: State, t: State)
    requires Shape(c, s) && Shape(c, t) && Greedy(c, s) && Calm(t)
    requires t.lbQueue == s.lbQueue && t.lbSlot == s.lbSlot
    requires t.fpQueue == s.fpQueue && t.fpSlot == s.fpSlot && t.processed == s.processed
    ensures Greedy(c, t)
  {
    forall l | 0 <= l < c.balancers
      ensures BalancerFull(c, t, l)
    {
      assert BalancerFull(c, s, l);
    }
    SameFullnesses(c, s, t);
    StillNoneAhead(c, s, t);
  }

  lemma StillNoneAhead(c: Config, s: State, t: State)
    requires Shape(c, s) && Shape(c, t) && forall j :: 0 <= j < c.FastPaths() ==> NoneAhead(c, s, j)
    requires forall l :: 0 <= l < c.balancers && t.lbSlot[l] == [] ==> s.lbSlot[l] == []
    requires forall j :: 0 <= j < c.FastPaths() && t.lbSlot[Owner(c, j)] == [] ==>
               t.fpQueue[j] == s.fpQueue[j] && t.fpSlot[j] == s.fpSlot[j] && t.processed[j] == s.processed[j]
    ensures forall j :: 0 <= j < c.FastPaths() ==> NoneAhead(c, t, j)
  {
    forall j | 0 <= j < c.FastPaths()
      ensures NoneAhead(c, t, j)
    {
      assert NoneAhead(c, s, j);
    }
  }

  /** A packet for a balancer whose queue is not full: then the balancer has nothing in its hands. */
  lemma GreedyWithRoom(c: Config, s: State, t: State, l: nat, q: seq<nat>)
    requires Shape(c, s) && Shape(c, t) && Greedy(c, s) && Calm(t) && l < c.balancers && |s.lbQueue[l]| < c.lbCapacity
    requires t.lbQueue == s.lbQueue[l := q] && t.lbSlot == s.lbSlot
    requires t.fpQueue == s.fpQueue && t.fpSlot == s.fpSlot && t.processed == s.processed
    ensures Greedy(c, t)
  {
    forall k | 0 <= k < c.balancers
      ensures BalancerFull(c, t, k)
    {
      assert BalancerFull(c, s, k);
    }
    SameFullnesses(c, s, t);
    StillNoneAhead(c, s, t);
  }

  /** A packet for a balancer whose queue was full, and which took one to make room. */
  lemma GreedyWithoutRoom(c: Config, s: State, t: State, l: nat, q: seq<nat>, p: seq<nat>)
    requires Shape(c, s) && Shape(c, t) && Greedy(c, s) && Calm(t) && l < c.balancers
    requires t.lbQueue == s.lbQueue[l := q] && |q| == c.lbCapacity && t.lbSlot == s.lbSlot[l := p] && p != []
    requires SameElsewhere(c, s, t, l) && forall j :: 0 <= j < c.FastPaths() ==> FastPathFull(c, t, j)
    ensures Greedy(c, t)
  {
    forall k | 0 <= k < c.balancers
      ensures BalancerFull(c, t, k)
    {
      assert BalancerFull(c, s, k);
    }
    StillNoneAhead(c, s, t);
  }

  lemma Taken(c: Config, s: State, i: nat, f: Front) returns (t: State)
    requires Gathered(c, s, f) && i < c.parsers && s.parserSlot[i] == [] && s.next < |c.packets|
    ensures Fits(c, f) && Gathered(c, t, AfterDeal(c, f, Take(i)))
  {
    ParserRuns(c, s, i);
    hide Sound, Ordered, Routed, Bounded, Greedy;
    CalmIfGreedy(c, s);
    assert s.raw + [s.next] == [s.next] && [s.next][1..] == [];
    var s1 := Go(c, s, ReaderPush);
    t := Go(c, s1, ParserPop(i));
    assert t == s.(next := s.next + 1, parserSlot := s.parserSlot[i := [s.next]]);
    StillGreedy(c, s, t);
  }

  lemma Rejected(c: Config, s: State, i: nat, f: Front) returns (t: State)
    requires Gathered(c, s, f) && i < c.parsers && s.parserSlot[i] != [] && !c.packets[s.parserSlot[i][0]].parses
    ensures Fits(c, f) && Gathered(c, t, AfterDeal(c, f, Give(i)))
  {
    hide Sound, Ordered, Routed, Bounded, Greedy;
    CalmIfGreedy(c, s);
    t := Go(c, s, ParserReject(i));
    StillGreedy(c, s, t);
    assert s.parserSlot[i] == [s.parserSlot[i][0]];
  }

  lemma CalmIfGreedy(c: Config, s: State)
    requires Shape(c, s) && Greedy(c, s)
    ensures Calm(s)
  {
  }

  /** A parser's packet joins the balancer's queue. */
  lemma Joined(c: Config, s: State, i: nat, l: nat) returns (t: State)
    requires Reachable(c, s) && s.pc == 0 && i < c.parsers && s.parserSlot[i] != []
    requires c.packets[s.parserSlot[i][0]].parses && l == Balancer(c, s.parserSlot[i][0])
    requires |s.lbQueue[l]| < c.lbCapacity
    ensures Reachable(c, t)
    ensures t == s.(parserSlot := s.parserSlot[i := []], lbQueue := s.lbQueue[l := s.lbQueue[l] + s.parserSlot[i]],
                    lbLog := s.lbLog[l := s.lbLog[l] + s.parserSlot[i]])
  {
    hide Sound, Ordered, Routed, Bounded;
    t := Go(c, s, ParserPush(i));
  }

  lemma QueueAtMost(c: Config, s: State, l: nat)
    requires Safe(c, s) && l < c.balancers
    ensures |s.lbQueue[l]| <= c.lbCapacity
  {
  }

  lemma Given(c: Config, s: State, i: nat, f: Front) returns (t: State)
    requires Gathered(c, s, f) && c.fileOpen
    requires i < c.parsers && s.parserSlot[i] != [] && c.packets[s.parserSlot[i][0]].parses
    ensures Fits(c, f) && Gathered(c, t, AfterDeal(c, f, Give(i)))
  {
    hide Sound, Ordered, Routed, Bounded, Greedy, Balancer;
    var p := s.parserSlot[i];
    var l := Balancer(c, p[0]);
    assert p == [p[0]];
    CalmIfGreedy(c, s);
    QueueAtMost(c, s, l);
    if |s.lbQueue[l]| == c.lbCapacity {
      var s1 := RoomMade(c, s, l);
      t := Joined(c, s1, i, l);
      SameFullnesses(c, s1, t);
      GreedyWithoutRoom(c, s, t, l, s.lbQueue[l][1..] + p, [s.lbQueue[l][0]]);
    } else {
      t := Joined(c, s, i, l);
      GreedyWithRoom(c, s, t, l, s.lbQueue[l] + p);
    }
  }

  lemma DealGathered(c: Config, s: State, f: Front, d: Deal) returns (t: State)
    requires Gathered(c, s, f) && c.fileOpen
    ensures Fits(c, f) && Gathered(c, t, AfterDeal(c, f, d))
  {
    hide Reachable, Greedy;
    t := s;
    if d.Take? {
      if d.i < c.parsers && s.parserSlot[d.i] == [] && s.next < |c.packets| { t := Taken(c, s, d.i, f); }
    } else if d.i < c.parsers && s.parserSlot[d.i] != [] {
      if c.packets[s.parserSlot[d.i][0]].parses {
        t := Given(c, s, d.i, f);
      } else {
        t := Rejected(c, s, d.i, f);
      }
    }
  }

  /** Whatever the deal, some run gathers it. */
  lemma {:induction false} Gather(c: Config, deals: seq<Deal>) returns (s: State)
    requires c.Valid() && c.fileOpen
    ensures Gathered(c, s, AfterDeals(c, deals))
  {
    hide AfterDeal, Gathered;
    if deals == [] {
      s := GatherNothing(c);
    } else {
      s := Gather(c, deals[..|deals| - 1]);
      s := DealGathered(c, s, AfterDeals(c, deals[..|deals| - 1]), deals[|deals| - 1]);
    }
  }

  lemma GatherNothing(c: Config) returns (s: State)
    requires c.Valid()
    ensures Gathered(c, s, FirstFront(c))
  {
    s := Start(c);
    StartReachable(c);
    hide Reachable;
  }
}
