/**
 No packet is lost, duplicated or invented: every packet read is in exactly one place, at every moment of every run.
 */
module PipelineConservation {
  import opened Pipeline
  import opened PipelineSafety

  /** Occurrences of packet p in one queue or slot. */
  function Occ(q: seq<nat>, p: nat): nat {
    multiset(q)[p]
  }

  /** Occurrences of packet p in all of several queues or slots. */
  function Total(qs: seq<seq<nat>>, p: nat): nat {
    if qs == [] then 0 else Occ(qs[0], p) + Total(qs[1..], p)
  }

  lemma {:induction false} TotalUpdate(qs: seq<seq<nat>>, i: nat, q: seq<nat>, p: nat)
    requires i < |qs|
    ensures Total(qs[i := q], p) == Total(qs, p) - Occ(qs[i], p) + Occ(q, p)
  {
    if i == 0 {
      assert qs[0 := q][1..] == qs[1..];
    } else {
      TotalUpdate(qs[1..], i - 1, q, p);
      assert qs[i := q][1..] == qs[1..][i - 1 := q];
    }
  }

  lemma {:induction false} TotalAbsent(qs: seq<seq<nat>>, p: nat)
    requires forall i :: 0 <= i < |qs| ==> p !in qs[i]
    ensures Total(qs, p) == 0
  {
    if qs != [] {
      TotalAbsent(qs[1..], p);
      assert p !in qs[0];
    }
  }

  lemma OccHead(q: seq<nat>, p: nat)
    requires q != []
    ensures Occ(q, p) == Occ([q[0]], p) + Occ(q[1..], p)
  {
    assert q == [q[0]] + q[1..];
  }

  lemma OccAppend(a: seq<nat>, b: seq<nat>, p: nat)
    ensures Occ(a + b, p) == Occ(a, p) + Occ(b, p)
  {
  }

  /** Number of places packet p is in: a queue, an in-flight slot, the error count, or processed. */
  function Places(s: State, p: nat): nat {
    Occ(s.raw, p) + Total(s.parserSlot, p) + Occ(s.errors, p)
    + Total(s.lbQueue, p) + Total(s.lbSlot, p)
    + Total(s.fpQueue, p) + Total(s.fpSlot, p) + Total(s.processed, p)
    + Occ(s.refused, p)
  }

  lemma ReaderPlaces(c: Config, s: State, p: nat)
    requires Shape(c, s) && Enabled(c, s, ReaderPush)
    ensures Places(Apply(c, s, ReaderPush), p) == Places(s, p) + if p == s.next then 1 else 0
  {
    hide Occ, Total;
    OccAppend(s.raw, [s.next], p);
    OccAppend(s.refused, [s.next], p);
    OccOne(s.next, p);
  }

  lemma OccOne(n: nat, p: nat)
    ensures Occ([n], p) == if p == n then 1 else 0
  {
  }

  lemma QuietPlaces(c: Config, s: State, step: Step, p: nat)
    requires Shape(c, s) && Enabled(c, s, step)
    requires step.ReaderExit? || step.ParserExit? || step.LbExit? || step.FpExit? || step.OutPop? || step.OutWrite?
             || step.OutExit? || step.Control? || step.TimeOut?
    ensures Places(Apply(c, s, step), p) == Places(s, p)
  {
    hide Occ, Total;
  }

  lemma ParserPopPlaces(c: Config, s: State, i: nat, p: nat)
    requires Shape(c, s) && Enabled(c, s, ParserPop(i))
    ensures Places(Apply(c, s, ParserPop(i)), p) == Places(s, p)
  {
    TotalUpdate(s.parserSlot, i, [s.raw[0]], p);
    OccHead(s.raw, p);
  }

  lemma ParserRejectPlaces(c: Config, s: State, i: nat, p: nat)
    requires Shape(c, s) && Enabled(c, s, ParserReject(i))
    ensures Places(Apply(c, s, ParserReject(i)), p) == Places(s, p)
  {
    TotalUpdate(s.parserSlot, i, [], p);
    OccAppend(s.errors, s.parserSlot[i], p);
  }

  lemma ParserPushPlaces(c: Config, s: State, i: nat, p: nat)
    requires Shape(c, s) && Enabled(c, s, ParserPush(i))
    ensures Places(Apply(c, s, ParserPush(i)), p) == Places(s, p)
  {
    var l := Balancer(c, s.parserSlot[i][0]);
    TotalUpdate(s.parserSlot, i, [], p);
    TotalUpdate(s.lbQueue, l, s.lbQueue[l] + s.parserSlot[i], p);
    OccAppend(s.lbQueue[l], s.parserSlot[i], p);
    OccAppend(s.refused, s.parserSlot[i], p);
  }

  lemma LbPopPlaces(c: Config, s: State, l: nat, p: nat)
    requires Shape(c, s) && Enabled(c, s, LbPop(l))
    ensures Places(Apply(c, s, LbPop(l)), p) == Places(s, p)
  {
    TotalUpdate(s.lbSlot, l, [s.lbQueue[l][0]], p);
    TotalUpdate(s.lbQueue, l, s.lbQueue[l][1..], p);
    OccHead(s.lbQueue[l], p);
  }

  lemma LbPushPlaces(c: Config, s: State, l: nat, p: nat)
    requires Shape(c, s) && Enabled(c, s, LbPush(l))
    ensures Places(Apply(c, s, LbPush(l)), p) == Places(s, p)
  {
    var j := PoolTarget(c, l, s.lbSlot[l][0]);
    TotalUpdate(s.lbSlot, l, [], p);
    TotalUpdate(s.fpQueue, j, s.fpQueue[j] + s.lbSlot[l], p);
    OccAppend(s.fpQueue[j], s.lbSlot[l], p);
    OccAppend(s.refused, s.lbSlot[l], p);
  }

  lemma FpPopPlaces(c: Config, s: State, j: nat, p: nat)
    requires Shape(c, s) && Enabled(c, s, FpPop(j))
    ensures Places(Apply(c, s, FpPop(j)), p) == Places(s, p)
  {
    hide Occ, Total;
    TotalUpdate(s.fpSlot, j, [s.fpQueue[j][0]], p);
    TotalUpdate(s.fpQueue, j, s.fpQueue[j][1..], p);
    OccHead(s.fpQueue[j], p);
    OccNone(p);
  }

  lemma FpProcessPlaces(c: Config, s: State, j: nat, p: nat)
    requires Shape(c, s) && Enabled(c, s, FpProcess(j))
    ensures Places(Apply(c, s, FpProcess(j)), p) == Places(s, p)
  {
    hide Occ, Total, Forwards;
    TotalUpdate(s.fpSlot, j, [], p);
    TotalUpdate(s.processed, j, s.processed[j] + s.fpSlot[j], p);
    OccAppend(s.processed[j], s.fpSlot[j], p);
    OccNone(p);
  }

  lemma OccNone(p: nat)
    ensures Occ([], p) == 0
  {
  }

  /** Steps move packets; only the reader's push adds one, the packet it has just read. */
  lemma StepPlaces(c: Config, s: State, step: Step, p: nat)
    requires Safe(c, s) && Enabled(c, s, step)
    ensures Places(Apply(c, s, step), p) == Places(s, p) + if step.ReaderPush? && p == s.next then 1 else 0
  {
    if step.ParserPop? {
      ParserPopPlaces(c, s, step.i, p);
    } else if step.ParserReject? {
      ParserRejectPlaces(c, s, step.i, p);
    } else if step.ParserPush? {
      ParserPushPlaces(c, s, step.i, p);
    } else if step.LbPop? {
      LbPopPlaces(c, s, step.l, p);
    } else if step.LbPush? {
      LbPushPlaces(c, s, step.l, p);
    } else if step.FpPop? {
      FpPopPlaces(c, s, step.j, p);
    } else if step.FpProcess? {
      FpProcessPlaces(c, s, step.j, p);
    } else if step.FpEmit? {
      FpEmitSafe(c, s, step.j);
    } else if step.ReaderPush? {
      ReaderPlaces(c, s, p);
    } else {
      QuietPlaces(c, s, step, p);
    }
  }

  lemma {:induction false} TotalEmpty(n: nat, p: nat)
    ensures Total(Replicate(n, []), p) == 0
  {
    TotalAbsent(Replicate(n, []), p);
  }

  /** In every interleaving every packet read so far is in exactly one place, and nothing else is anywhere. */
  lemma {:induction false} ExactlyOnePlace(c: Config, states: seq<State>, steps: seq<Step>, n: nat, p: nat)
    requires IsRun(c, states, steps) && n < |states|
    ensures Places(states[n], p) == if p < states[n].next then 1 else 0
  {
    if n == 0 {
      TotalEmpty(c.parsers, p);
      TotalEmpty(c.balancers, p);
      TotalEmpty(c.FastPaths(), p);
    } else {
      ExactlyOnePlace(c, states, steps, n - 1, p);
      RunSafe(c, states, steps, n - 1);
      assert StepTo(c, states[n - 1], steps[n - 1], states[n]);
      StepPlaces(c, states[n - 1], steps[n - 1], p);
      NextAdvances(c, states[n - 1], steps[n - 1]);
    }
  }

  lemma NextAdvances(c: Config, s: State, step: Step)
    requires Shape(c, s) && Enabled(c, s, step)
    ensures Apply(c, s, step).next == s.next + if step.ReaderPush? then 1 else 0
  {
  }

  /** Occurrences on the way out: written, queued, in the output thread's hands, or being pushed. */
  function OnTheWayOut(s: State, p: nat): nat {
    Occ(s.written, p) + Occ(s.outSlot, p) + Occ(s.out, p) + Total(s.emitting, p)
  }

  /** Every processed packet is forwarded or dropped; with a file open every forwarded one is on its way out. */
  predicate Accounted(c: Config, s: State, p: nat) {
    && Total(s.processed, p) == Occ(s.forwarded, p) + Occ(s.dropped, p)
    && (c.fileOpen ==> Occ(s.forwarded, p) == OnTheWayOut(s, p))
  }

  lemma FpProcessAccounted(c: Config, s: State, j: nat, p: nat)
    requires Safe(c, s) && Enabled(c, s, FpProcess(j)) && Accounted(c, s, p)
    ensures Accounted(c, Apply(c, s, FpProcess(j)), p)
  {
    hide Ordered, Routed, Bounded, Forwards, Occ, Total;
    TotalUpdate(s.processed, j, s.processed[j] + s.fpSlot[j], p);
    OccAppend(s.processed[j], s.fpSlot[j], p);
    OccAppend(s.forwarded, s.fpSlot[j], p);
    OccAppend(s.dropped, s.fpSlot[j], p);
    TotalUpdate(s.emitting, j, s.fpSlot[j], p);
    OccNone(p);
  }

  lemma FpEmitAccounted(c: Config, s: State, j: nat, p: nat)
    requires Safe(c, s) && Enabled(c, s, FpEmit(j)) && Accounted(c, s, p)
    ensures Accounted(c, Apply(c, s, FpEmit(j)), p)
  {
    FpEmitSafe(c, s, j);
    TotalUpdate(s.emitting, j, [], p);
    OccAppend(s.out, s.emitting[j], p);
  }

  lemma OutputAccounted(c: Config, s: State, step: Step, p: nat)
    requires Shape(c, s) && Enabled(c, s, step) && Accounted(c, s, p) && (step.OutPop? || step.OutWrite?)
    ensures Accounted(c, Apply(c, s, step), p)
  {
    if step.OutPop? { OccHead(s.out, p); } else { OccAppend(s.written, s.outSlot, p); }
  }

  lemma QuietAccounted(c: Config, s: State, step: Step, p: nat)
    requires Shape(c, s) && Enabled(c, s, step) && Accounted(c, s, p)
    requires !step.FpProcess? && !step.FpEmit? && !step.OutPop? && !step.OutWrite?
    ensures Accounted(c, Apply(c, s, step), p)
  {
  }

  lemma StepAccounted(c: Config, s: State, step: Step, p: nat)
    requires Safe(c, s) && Enabled(c, s, step) && Accounted(c, s, p)
    ensures Accounted(c, Apply(c, s, step), p)
  {
    if step.FpProcess? {
      FpProcessAccounted(c, s, step.j, p);
    } else if step.FpEmit? {
      FpEmitAccounted(c, s, step.j, p);
    } else if step.OutPop? || step.OutWrite? {
      OutputAccounted(c, s, step, p);
    } else {
      QuietAccounted(c, s, step, p);
    }
  }

  lemma {:induction false} ForwardedIsAccounted(c: Config, states: seq<State>, steps: seq<Step>, n: nat, p: nat)
    requires IsRun(c, states, steps) && n < |states|
    ensures Accounted(c, states[n], p)
  {
    if n == 0 {
      TotalEmpty(c.FastPaths(), p);
    } else {
      ForwardedIsAccounted(c, states, steps, n - 1, p);
      RunSafe(c, states, steps, n - 1);
      assert StepTo(c, states[n - 1], steps[n - 1], states[n]);
      StepAccounted(c, states[n - 1], steps[n - 1], p);
    }
  }

  // ---------------------------------------------------------------- verdicts are kept

  /** Only packets with the verdict to forward are forwarded, and what a fast path emits is what it processed last. */
  predicate VerdictsKept(c: Config, s: State)
    requires Shape(c, s)
  {
    && (forall k :: 0 <= k < |s.forwarded| ==> Forwards(c, s.forwarded[k]))
    && (forall j :: 0 <= j < c.FastPaths() && s.emitting[j] != [] ==>
          EmitsLast(c, s.emitting[j], s.fpSlot[j], s.processed[j]))
  }

  predicate EmitsLast(c: Config, emitting: seq<nat>, slot: seq<nat>, processed: seq<nat>) {
    slot == [] && processed != [] && emitting == [processed[|processed| - 1]] && Forwards(c, emitting[0])
  }

  lemma FpProcessKeepsVerdicts(c: Config, s: State, j: nat)
    requires Shape(c, s) && Enabled(c, s, FpProcess(j)) && VerdictsKept(c, s) && Shape(c, Apply(c, s, FpProcess(j)))
    ensures VerdictsKept(c, Apply(c, s, FpProcess(j)))
  {
    hide Forwards;
    var t := Apply(c, s, FpProcess(j));
    assert s.fpSlot[j] == [s.fpSlot[j][0]];
    assert t.emitting[j] != [] ==> EmitsLast(c, t.emitting[j], t.fpSlot[j], t.processed[j]);
  }

  lemma FpPopKeepsVerdicts(c: Config, s: State, j: nat)
    requires Shape(c, s) && Enabled(c, s, FpPop(j)) && VerdictsKept(c, s) && Shape(c, Apply(c, s, FpPop(j)))
    ensures VerdictsKept(c, Apply(c, s, FpPop(j)))
  {
    hide Forwards;
  }

  lemma FpEmitKeepsVerdicts(c: Config, s: State, j: nat)
    requires Shape(c, s) && Enabled(c, s, FpEmit(j)) && VerdictsKept(c, s) && Shape(c, Apply(c, s, FpEmit(j)))
    ensures VerdictsKept(c, Apply(c, s, FpEmit(j)))
  {
    hide Forwards, EmitsLast;
  }

  lemma OtherKeepsVerdicts(c: Config, s: State, step: Step)
    requires Shape(c, s) && Enabled(c, s, step) && !step.FpProcess? && !step.FpPop? && !step.FpEmit?
    ensures var t := Apply(c, s, step);
            t.forwarded == s.forwarded && t.emitting == s.emitting && t.fpSlot == s.fpSlot && t.processed == s.processed
  {
  }

  lemma StepKeepsVerdicts(c: Config, s: State, step: Step)
    requires Safe(c, s) && Enabled(c, s, step) && VerdictsKept(c, s)
    ensures Shape(c, Apply(c, s, step)) && VerdictsKept(c, Apply(c, s, step))
  {
    StepSafe(c, s, step);
    if step.FpProcess? {
      FpProcessKeepsVerdicts(c, s, step.j);
    } else if step.FpPop? {
      FpPopKeepsVerdicts(c, s, step.j);
    } else if step.FpEmit? {
      FpEmitKeepsVerdicts(c, s, step.j);
    } else {
      OtherKeepsVerdicts(c, s, step);
    }
    hide Apply, Enabled, Ordered, Routed, Bounded, EmitsLast, Forwards;
  }

  lemma {:induction false} RunKeepsVerdicts(c: Config, states: seq<State>, steps: seq<Step>, n: nat)
    requires IsRun(c, states, steps) && n < |states|
    ensures Shape(c, states[n]) && VerdictsKept(c, states[n])
  {
    hide Apply, Enabled, VerdictsKept, Safe;
    if n == 0 {
      StartKeepsVerdicts(c);
    } else {
      RunKeepsVerdicts(c, states, steps, n - 1);
      RunSafe(c, states, steps, n - 1);
      assert StepTo(c, states[n - 1], steps[n - 1], states[n]);
      StepKeepsVerdicts(c, states[n - 1], steps[n - 1]);
    }
  }

  lemma StartKeepsVerdicts(c: Config)
    requires c.Valid()
    ensures Shape(c, Start(c)) && VerdictsKept(c, Start(c))
  {
  }

  /** All fast paths have been joined. */
  predicate FastPathsJoined(c: Config, s: State) {
    s.pc >= c.OutShutAt()
  }

  lemma JoinedMeansDrained(c: Config, s: State)
    requires Safe(c, s) && FastPathsJoined(c, s)
    ensures s.raw == [] && s.next == |c.packets|
    ensures forall i :: 0 <= i < c.parsers ==> s.parserSlot[i] == []
    ensures forall l :: 0 <= l < c.balancers ==> s.lbQueue[l] == [] && s.lbSlot[l] == []
    ensures forall j :: 0 <= j < c.FastPaths() ==> s.fpQueue[j] == [] && s.fpSlot[j] == []
  {
    assert s.parserExited[0];
  }

  /**
   Once the fast paths are joined, the processed packets are exactly the packets that parsed, each once, and
   the errors are exactly the others.
   */
  lemma ProcessedAreExactlyParsed(c: Config, states: seq<State>, steps: seq<Step>, n: nat, p: nat)
    requires IsRun(c, states, steps) && n < |states| && FastPathsJoined(c, states[n])
    ensures var s := states[n];
            && Total(s.processed, p) == (if p < |c.packets| && c.packets[p].parses then 1 else 0)
            && Occ(s.errors, p) == (if p < |c.packets| && !c.packets[p].parses then 1 else 0)
  {
    var s := states[n];
    ExactlyOnePlace(c, states, steps, n, p);
    RunSafe(c, states, steps, n);
    JoinedMeansDrained(c, s);
    TotalAbsent(s.parserSlot, p);
    TotalAbsent(s.lbQueue, p);
    TotalAbsent(s.lbSlot, p);
    TotalAbsent(s.fpQueue, p);
    TotalAbsent(s.fpSlot, p);
    if p < |c.packets| && c.packets[p].parses {
      assert p !in s.errors;
    } else {
      TotalAbsent(s.processed, p);
    }
  }
}
