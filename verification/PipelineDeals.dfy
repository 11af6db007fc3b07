/**
 The front of the pipeline: parsers take packets in reader order and hand them to the balancers in any order they
 like. What a run can put into the balancers' queues is exactly what such a deal of the input gives them.
 */
module PipelineDeals {
  import opened Pipeline
  import opened PipelineSafety
  import opened PipelineOwnership

  /** Parser i takes the next packet of the input, or hands on the packet it holds. */
  datatype Deal = Take(i: nat) | Give(i: nat)

  /** How far the input is taken, what each parser holds, and what each balancer was given, oldest first. */
  datatype Front = Front(next: nat, slots: seq<seq<nat>>, logs: seq<seq<nat>>)

  predicate Fits(c: Config, f: Front) {
    && c.Valid() && f.next <= |c.packets| && |f.slots| == c.parsers && |f.logs| == c.balancers
    && Slots(f.slots, |c.packets|)
  }

  /** The front after one deal; a deal that is not possible changes nothing, and packets that do not parse are lost. */
  function AfterDeal(c: Config, f: Front, d: Deal): (g: Front)
    requires Fits(c, f)
    ensures Fits(c, g)
  {
    match d
    case Take(i) =>
      if i < c.parsers && f.slots[i] == [] && f.next < |c.packets|
      then f.(next := f.next + 1, slots := f.slots[i := [f.next]]) else f
    case Give(i) =>
      if i < c.parsers && f.slots[i] != [] then
        var p := f.slots[i][0];
        var l := Balancer(c, p);
        f.(slots := f.slots[i := []], logs := if c.packets[p].parses then f.logs[l := f.logs[l] + [p]] else f.logs)
      else f
  }

  function FirstFront(c: Config): Front {
    Front(0, Replicate(c.parsers, []), Replicate(c.balancers, []))
  }

  function AfterDeals(c: Config, deals: seq<Deal>): (f: Front)
    requires c.Valid()
    ensures Fits(c, f)
  {
    if deals == [] then FirstFront(c)
    else AfterDeal(c, AfterDeals(c, deals[..|deals| - 1]), deals[|deals| - 1])
  }

  ghost predicate Dealt(c: Config, f: Front)
    requires c.Valid()
  {
    exists deals :: AfterDeals(c, deals) == f
  }

  /** The balancers' logs when the whole input is dealt. */
  ghost predicate Dealable(c: Config, logs: seq<seq<nat>>)
    requires c.Valid()
    ensures Dealable(c, logs) ==> |logs| == c.balancers
  {
    Dealt(c, Front(|c.packets|, Replicate(c.parsers, []), logs))
  }

  lemma DealMore(c: Config, f: Front, d: Deal)
    requires c.Valid() && Fits(c, f) && Dealt(c, f)
    ensures Dealt(c, AfterDeal(c, f, d))
  {
    hide AfterDeal, Fits, FirstFront;
    var deals :| AfterDeals(c, deals) == f;
    assert (deals + [d])[..|deals + [d]| - 1] == deals;
    assert AfterDeals(c, deals + [d]) == AfterDeal(c, f, d);
  }

  lemma NothingDealt(c: Config)
    requires c.Valid()
    ensures Dealt(c, FirstFront(c))
  {
    assert AfterDeals(c, []) == FirstFront(c);
  }

  // ---------------------------------------------------------------- every run deals

  /** The unparsed packets in the raw queue are the last ones read, in order. */
  predicate RawIsRecent(s: State) {
    |s.raw| <= s.next && forall i :: 0 <= i < |s.raw| ==> s.raw[i] == s.next - |s.raw| + i
  }

  function FrontOf(s: State): Front
    requires RawIsRecent(s)
  {
    Front(s.next - |s.raw|, s.parserSlot, s.lbLog)
  }

  /** The deal a step is. */
  function DealOf(step: Step): Deal {
    if step.ParserPop? then Take(step.i) else if step.ParserPush? || step.ParserReject? then Give(step.i) else Give(0)
  }

  predicate IsDeal(step: Step) {
    step.ParserPop? || step.ParserPush? || step.ParserReject?
  }

  lemma TakeIsDealt(c: Config, s: State, i: nat, t: State)
    requires SafeStep(c, s, ParserPop(i), t) && RawIsRecent(s)
    ensures RawIsRecent(t) && Fits(c, FrontOf(s)) && FrontOf(t) == AfterDeal(c, FrontOf(s), Take(i))
  {
    hide Ordered, Routed, Bounded;
  }

  lemma GiveIsDealt(c: Config, s: State, step: Step, t: State)
    requires SafeStep(c, s, step, t) && RawIsRecent(s) && (step.ParserPush? || step.ParserReject?)
    ensures RawIsRecent(t) && Fits(c, FrontOf(s)) && FrontOf(t) == AfterDeal(c, FrontOf(s), Give(step.i))
  {
    if step.ParserPush? { ParserPushMeetsOpenQueue(c, s, step.i); }
    hide Ordered, Routed, Bounded, Balancer;
    assert s.parserSlot[step.i] == [s.parserSlot[step.i][0]];
  }

  lemma ReaderReads(c: Config, s: State)
    requires Safe(c, s) && Enabled(c, s, ReaderPush)
    ensures Apply(c, s, ReaderPush) == s.(next := s.next + 1, raw := s.raw + [s.next])
  {
    assert s.pc == 0;
  }

  lemma OtherIsNoDeal(c: Config, s: State, step: Step, t: State)
    requires SafeStep(c, s, step, t) && RawIsRecent(s) && !IsDeal(step)
    ensures RawIsRecent(t) && FrontOf(t) == FrontOf(s)
  {
    if step.ReaderPush? {
      ReaderReads(c, s);
    } else {
      OtherReaderOrder(c, s, step);
      hide Apply, Enabled, Safe, Shape;
    }
  }

  lemma StepDeals(c: Config, s: State, step: Step, t: State)
    requires SafeStep(c, s, step, t) && c.Valid() && RawIsRecent(s) && Dealt(c, FrontOf(s))
    ensures RawIsRecent(t) && Dealt(c, FrontOf(t))
  {
    hide *;
    if step.ParserPop? {
      TakeIsDealt(c, s, step.i, t);
      DealMore(c, FrontOf(s), Take(step.i));
    } else if step.ParserPush? || step.ParserReject? {
      GiveIsDealt(c, s, step, t);
      DealMore(c, FrontOf(s), Give(step.i));
    } else {
      NoDeal(step);
      OtherIsNoDeal(c, s, step, t);
    }
  }

  lemma NoDeal(step: Step)
    requires !step.ParserPop? && !step.ParserPush? && !step.ParserReject?
    ensures !IsDeal(step)
  {
  }

  lemma StartDeals(c: Config)
    requires c.Valid()
    ensures RawIsRecent(Start(c)) && Dealt(c, FrontOf(Start(c)))
  {
    NothingDealt(c);
  }

  /** At every moment of every run the balancers' logs and the parsers' hands are those of some deal of the input. */
  lemma {:induction false} RunDeals(c: Config, states: seq<State>, steps: seq<Step>, n: nat)
    requires IsRun(c, states, steps) && n < |states|
    ensures RawIsRecent(states[n]) && c.Valid() && Dealt(c, FrontOf(states[n]))
  {
    hide StepTo, Start, RawIsRecent, FrontOf, Dealt;
    if n == 0 {
      StartDeals(c);
    } else {
      RunDeals(c, states, steps, n - 1);
      AroundStep(c, states, steps, n - 1);
      StepDeals(c, states[n - 1], steps[n - 1], states[n]);
    }
  }

  /** Once the output thread has left, the whole input has been dealt. */
  lemma ExitDeals(c: Config, states: seq<State>, steps: seq<Step>, n: nat)
    requires IsRun(c, states, steps) && n < |states| && states[n].outExited
    ensures c.Valid() && Dealable(c, states[n].lbLog)
  {
    RunDeals(c, states, steps, n);
    RunSafe(c, states, steps, n);
    InputIsOver(c, states[n]);
    assert states[n].parserSlot == Replicate(c.parsers, []);
    hide Safe, IsRun, AfterDeals;
  }

  lemma InputIsOver(c: Config, s: State)
    requires Safe(c, s) && s.outExited
    ensures c.Valid() && s.raw == [] && s.next == |c.packets|
    ensures |s.parserSlot| == c.parsers && forall i :: 0 <= i < c.parsers ==> s.parserSlot[i] == []
  {
    assert s.parserExited[0];
    forall i | 0 <= i < c.parsers
      ensures s.parserSlot[i] == []
    {
      assert s.pc > c.ParserJoinAt(i) && s.parserExited[i];
    }
  }

  // ---------------------------------------------------------------- one parser

  /** What the balancers get of the first n packets in reader order. */
  function ReaderLogs(c: Config, n: nat): (logs: seq<seq<nat>>)
    requires c.Valid() && n <= |c.packets|
    ensures |logs| == c.balancers && forall l :: 0 <= l < c.balancers ==> logs[l] == Accepted(c, l, n)
  {
    seq(c.balancers, l requires 0 <= l < c.balancers => Accepted(c, l, n))
  }

  /** What one parser has given is the packets before the one it holds. */
  predicate InReaderOrder(c: Config, f: Front)
    requires Fits(c, f) && c.parsers == 1
  {
    && |f.slots[0]| <= f.next
    && (f.slots[0] != [] ==> f.slots[0] == [f.next - 1])
    && forall l :: 0 <= l < c.balancers ==> f.logs[l] == Accepted(c, l, f.next - |f.slots[0]|)
  }

  lemma FirstInReaderOrder(c: Config)
    requires c.Valid() && c.parsers == 1
    ensures Fits(c, FirstFront(c)) && InReaderOrder(c, FirstFront(c))
  {
  }

  lemma OneParserDeal(c: Config, f: Front, d: Deal)
    requires Fits(c, f) && c.parsers == 1 && InReaderOrder(c, f)
    ensures InReaderOrder(c, AfterDeal(c, f, d))
  {
  }

  lemma {:induction false} OneParserDeals(c: Config, deals: seq<Deal>)
    requires c.Valid() && c.parsers == 1
    ensures InReaderOrder(c, AfterDeals(c, deals))
  {
    hide InReaderOrder, AfterDeal;
    if deals == [] {
      FirstInReaderOrder(c);
    } else {
      OneParserDeals(c, deals[..|deals| - 1]);
      OneParserDeal(c, AfterDeals(c, deals[..|deals| - 1]), deals[|deals| - 1]);
    }
  }

  /** With one parser the balancers can only get the packets in reader order. */
  lemma OneParserDealsInOrder(c: Config, logs: seq<seq<nat>>)
    requires c.Valid() && c.parsers == 1 && Dealable(c, logs)
    ensures logs == ReaderLogs(c, |c.packets|)
  {
    var deals :| AfterDeals(c, deals) == Front(|c.packets|, Replicate(c.parsers, []), logs);
    OneParserDeals(c, deals);
  }

  /** The first parser can always hand on every packet itself. */
  lemma {:induction false} FirstParserDeals(c: Config, n: nat)
    requires c.Valid() && n <= |c.packets|
    ensures Dealt(c, Front(n, Replicate(c.parsers, []), ReaderLogs(c, n)))
  {
    if n == 0 {
      NothingDealt(c);
      assert ReaderLogs(c, 0) == Replicate(c.balancers, []);
    } else {
      FirstParserDeals(c, n - 1);
      OnePacketDealt(c, n - 1);
    }
  }

  lemma GivenInOrder(c: Config, n: nat, g: Front)
    requires Fits(c, g) && n < |c.packets| && g.slots[0] == [n] && g.logs == ReaderLogs(c, n)
    ensures AfterDeal(c, g, Give(0)).logs == ReaderLogs(c, n + 1)
  {
    var logs := AfterDeal(c, g, Give(0)).logs;
    forall l | 0 <= l < c.balancers
      ensures logs[l] == ReaderLogs(c, n + 1)[l]
    {
      assert Accepted(c, l, n) + [] == Accepted(c, l, n);
    }
  }

  lemma OnePacketDealt(c: Config, n: nat)
    requires c.Valid() && n < |c.packets| && Dealt(c, Front(n, Replicate(c.parsers, []), ReaderLogs(c, n)))
    ensures Dealt(c, Front(n + 1, Replicate(c.parsers, []), ReaderLogs(c, n + 1)))
  {
    var f := Front(n, Replicate(c.parsers, []), ReaderLogs(c, n));
    var none: seq<seq<nat>> := Replicate(c.parsers, []);
    DealMore(c, f, Take(0));
    var g := AfterDeal(c, f, Take(0));
    assert g == Front(n + 1, none[0 := [n]], ReaderLogs(c, n));
    DealMore(c, g, Give(0));
    assert none[0 := [n]][0 := []] == none;
    GivenInOrder(c, n, g);
  }
}
