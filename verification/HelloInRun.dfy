/**
 A flow among others. In a run of a fast path, with packets of other flows and cleanups in between, the flow's entry
 is what its own packets make of it, as long as the table keeps it; so a segmented ClientHello is caught there too.
 */
module HelloInRun {
  import opened Bytes
  import opened Flows
  import opened AppTypes
  import opened FlowTable
  import opened FastPath
  import opened SegmentedHello
  import opened Verdicts
  import Rules

  /** The packets of flow f among the events from i up to (not including) j are those sent. */
  predicate Carries(f: Flow, events: seq<Event>, i: nat, j: nat, sent: seq<Sent>)
    requires i <= j <= |events|
    decreases j
  {
    if i == j then sent == []
    else if Concerns(events[j - 1], f.key.Canonical()) then
      && sent != []
      && events[j - 1].job == f.Packet(sent[|sent| - 1]) && events[j - 1].now == sent[|sent| - 1].now
      && Carries(f, events, i, j - 1, sent[..|sent| - 1])
    else Carries(f, events, i, j - 1, sent)
  }

  /** Neither eviction nor cleanup removes the flow's entry between states i and j. */
  ghost predicate Survives(f: Flow, states: seq<FastPath.State>, i: nat, j: nat)
    requires i <= j < |states|
  {
    forall n {:trigger states[n + 1]} :: i <= n < j && f.key.Canonical() in states[n].tracker.connections ==>
      f.key.Canonical() in states[n + 1].tracker.connections
  }

  /** The entry is what the packets made of it; before the first one there is none. */
  predicate EntryIs(env: Env, f: Flow, s: FastPath.State, sent: seq<Sent>)
    requires Ipv4(f.key)
  {
    var k, table := f.key.Canonical(), s.tracker.connections;
    if sent == [] then k !in table else k in table && table[k] == f.Entry(env, sent)
  }

  /** A client opens the flow. */
  predicate OpenedByClient(f: Flow, sent: seq<Sent>) {
    sent != [] ==> sent[0].byClient && sent[0].now == f.start
  }

  lemma OthersAddNoEntry(env: Env, max: nat, s: FastPath.State, e: Event, k: FlowKey)
    requires Legal(s, e) && !Concerns(e, k) && k !in s.tracker.connections
    ensures k !in Next(env, max, s, e).tracker.connections
  {
    hide OutcomeOf, FlowKey.Canonical;
  }

  /** An event that is no packet of the flow. */
  lemma OtherEvent(env: Env, max: nat, f: Flow, s: FastPath.State, e: Event, t: FastPath.State, sent: seq<Sent>)
    requires Verdicts.StepTo(env, max, s, e, t) && !Concerns(e, f.key.Canonical())
    requires Ipv4(f.key) && EntryIs(env, f, s, sent)
    requires f.key.Canonical() in s.tracker.connections ==> f.key.Canonical() in t.tracker.connections
    ensures EntryIs(env, f, t, sent)
  {
    if sent == [] {
      OthersAddNoEntry(env, max, s, e, f.key.Canonical());
    } else {
      OthersLeaveEntry(env, max, s, e, f.key.Canonical());
    }
    hide Next, Legal, Flow.Entry, FlowKey.Canonical;
  }

  /** The flow's next packet. */
  lemma OwnEvent(env: Env, max: nat, f: Flow, s: FastPath.State, e: Event, t: FastPath.State, sent: seq<Sent>)
    requires Verdicts.StepTo(env, max, s, e, t) && Concerns(e, f.key.Canonical())
    requires Ipv4(f.key) && sent != [] && OpenedByClient(f, sent) && EntryIs(env, f, s, sent[..|sent| - 1])
    requires e.job == f.Packet(sent[|sent| - 1]) && e.now == sent[|sent| - 1].now
    ensures Legal(s, e) && e.Packet? && OutcomeOf(env, max, s, e.job, e.now, e.order) == f.OnLast(env, sent)
    ensures EntryIs(env, f, t, sent)
  {
    var k := |sent| - 1;
    assert sent[..k + 1] == sent;
    hide OutcomeOf, Process, FlowKey.Canonical, Flow.Entry, Flow.OnLast, Flow.Packet;
    assert Filed(env, f, s, sent, k);
    TableFollowsEntry(env, f, max, s, e.order, sent, k, e.job);
  }

  lemma CarriesStep(f: Flow, events: seq<Event>, i: nat, j: nat, sent: seq<Sent>)
    requires i < j <= |events| && Carries(f, events, i, j, sent)
    ensures if Concerns(events[j - 1], f.key.Canonical()) then
              && sent != []
              && events[j - 1].job == f.Packet(sent[|sent| - 1]) && events[j - 1].now == sent[|sent| - 1].now
              && Carries(f, events, i, j - 1, sent[..|sent| - 1])
            else Carries(f, events, i, j - 1, sent)
  {
    hide Concerns, Flow.Packet, FlowKey.Canonical;
  }

  lemma NothingCarried(f: Flow, events: seq<Event>, i: nat, sent: seq<Sent>)
    requires i <= |events| && Carries(f, events, i, i, sent)
    ensures sent == []
  {
  }

  lemma StepOfRun(env: Env, max: nat, states: seq<FastPath.State>, events: seq<Event>, n: nat)
    requires Verdicts.IsRun(env, max, states, events) && n < |events|
    ensures |states| == |events| + 1 && Verdicts.StepTo(env, max, states[n], events[n], states[n + 1])
  {
    hide Verdicts.StepTo;
  }

  lemma SurvivesStep(f: Flow, states: seq<FastPath.State>, i: nat, j: nat)
    requires i < j < |states| && Survives(f, states, i, j)
    ensures Survives(f, states, i, j - 1)
    ensures f.key.Canonical() in states[j - 1].tracker.connections ==>
              f.key.Canonical() in states[j].tracker.connections
  {
    var n := j - 1;
    assert f.key.Canonical() in states[n].tracker.connections ==>
        f.key.Canonical() in states[n + 1].tracker.connections;
  }

  lemma OpenedBefore(f: Flow, sent: seq<Sent>)
    requires OpenedByClient(f, sent) && sent != []
    ensures OpenedByClient(f, sent[..|sent| - 1])
  {
  }

  /** Whatever happens to other flows, the entry of a flow is what its own packets make of it. */
  lemma {:induction false} EntryInRun(env: Env, max: nat, states: seq<FastPath.State>, events: seq<Event>, f: Flow,
                                      i: nat, j: nat, sent: seq<Sent>)
    requires Verdicts.IsRun(env, max, states, events) && i <= j <= |events| && |states| == |events| + 1
    requires Ipv4(f.key) && f.key.Canonical() !in states[i].tracker.connections && Survives(f, states, i, j)
    requires Carries(f, events, i, j, sent) && OpenedByClient(f, sent)
    ensures EntryIs(env, f, states[j], sent)
    decreases j
  {
    hide *;
    if i == j {
      NothingCarried(f, events, i, sent);
      NoEntryYet(env, f, states[i]);
    } else {
      SurvivesStep(f, states, i, j);
      CarriesStep(f, events, i, j, sent);
      StepOfRun(env, max, states, events, j - 1);
      if Concerns(events[j - 1], f.key.Canonical()) {
        OpenedBefore(f, sent);
        EntryInRun(env, max, states, events, f, i, j - 1, sent[..|sent| - 1]);
        OwnEvent(env, max, f, states[j - 1], events[j - 1], states[j], sent);
      } else {
        EntryInRun(env, max, states, events, f, i, j - 1, sent);
        OtherEvent(env, max, f, states[j - 1], events[j - 1], states[j], sent);
      }
    }
  }

  lemma NoEntryYet(env: Env, f: Flow, s: FastPath.State)
    requires Ipv4(f.key) && f.key.Canonical() !in s.tracker.connections
    ensures EntryIs(env, f, s, [])
  {
  }

  /** And what happens on a packet of the flow is what happens on the last of them. */
  lemma OutcomeInRun(env: Env, max: nat, states: seq<FastPath.State>, events: seq<Event>, f: Flow, i: nat, j: nat,
                     sent: seq<Sent>)
    requires Verdicts.IsRun(env, max, states, events) && i <= j < |events| && |states| == |events| + 1
    requires Ipv4(f.key) && f.key.Canonical() !in states[i].tracker.connections && Survives(f, states, i, j)
    requires Carries(f, events, i, j + 1, sent) && OpenedByClient(f, sent)
    requires Concerns(events[j], f.key.Canonical())
    ensures sent != [] && Legal(states[j], events[j]) && events[j].Packet?
    ensures OutcomeOf(env, max, states[j], events[j].job, events[j].now, events[j].order) == f.OnLast(env, sent)
    ensures EntryIs(env, f, states[j + 1], sent)
  {
    hide *;
    CarriesStep(f, events, i, j + 1, sent);
    OpenedBefore(f, sent);
    EntryInRun(env, max, states, events, f, i, j, sent[..|sent| - 1]);
    StepOfRun(env, max, states, events, j);
    OwnEvent(env, max, f, states[j], events[j], states[j + 1], sent);
  }

  /**
   The hello theorem in a run: the packet of the flow that completes the hello is recognised exactly if the flow had
   not been given up, whatever packets of other flows and cleanups came in between.
   */
  lemma HelloInRunIsCaughtIffInTime(env: Env, max: nat, states: seq<FastPath.State>, events: seq<Event>, f: Flow,
                                    i: nat, j: nat, sent: seq<Sent>, host: bytes, random: bytes, stream: bytes)
    requires Verdicts.IsRun(env, max, states, events) && i <= j < |events| && |states| == |events| + 1
    requires Ipv4(f.key) && f.key.Canonical() !in states[i].tracker.connections && Survives(f, states, i, j)
    requires Carries(f, events, i, j + 1, sent) && OpenedByClient(f, sent)
    requires Concerns(events[j], f.key.Canonical())
    requires TlsClient(env, f, host, random, stream, sent) && NotReopened(sent) && sent != []
    requires !HelloSent(host, random, sent[..|sent| - 1]) && HelloSent(host, random, sent)
    ensures Legal(states[j], events[j]) && events[j].Packet? && f.key.Canonical() in states[j + 1].tracker.connections
    ensures var o := OutcomeOf(env, max, states[j], events[j].job, events[j].now, events[j].order);
            && o.conn == states[j + 1].tracker.connections[f.key.Canonical()]
            && o.verdict == Verdict(env, max, states[j], events[j])
            && (Recognised(env, o, host) <==> InTime(sent[..|sent| - 1]))
            && (!InTime(sent[..|sent| - 1]) ==> o.verdict == UnknownVerdict(env) && GivenUp(env, f, o.conn))
  {
    hide *;
    OutcomeInRun(env, max, states, events, f, i, j, sent);
    AllOf(sent);
    HelloIsCaughtIffInTime(env, f, host, random, stream, sent, |sent| - 1);
    EntryAndVerdict(env, max, f, states[j], events[j], states[j + 1], sent);
  }

  lemma AllOf(sent: seq<Sent>)
    ensures sent[..|sent|] == sent
  {
  }

  lemma EntryAndVerdict(env: Env, max: nat, f: Flow, s: FastPath.State, e: Event, t: FastPath.State, sent: seq<Sent>)
    requires Ipv4(f.key) && sent != [] && EntryIs(env, f, t, sent) && Legal(s, e) && e.Packet?
    ensures f.key.Canonical() in t.tracker.connections
    ensures t.tracker.connections[f.key.Canonical()] == f.OnLast(env, sent).conn
    ensures Verdict(env, max, s, e) == OutcomeOf(env, max, s, e.job, e.now, e.order).verdict
  {
    hide OutcomeOf, FlowKey.Canonical, Flow.OnLast;
  }

  /** With the domain rules plugged in: the verdict of that packet in the run. */
  lemma RulesDecideHelloInRun(env: Env, rules: Rules.Rules, max: nat, states: seq<FastPath.State>, events: seq<Event>,
                              f: Flow, i: nat, j: nat, sent: seq<Sent>, host: bytes, random: bytes, stream: bytes)
    requires forall name :: env.domainBlocked(name) == Rules.DomainBlocked(rules, Chars(name))
    requires Verdicts.IsRun(env, max, states, events) && i <= j < |events| && |states| == |events| + 1
    requires Ipv4(f.key) && f.key.Canonical() !in states[i].tracker.connections && Survives(f, states, i, j)
    requires Carries(f, events, i, j + 1, sent) && OpenedByClient(f, sent)
    requires Concerns(events[j], f.key.Canonical())
    requires TlsClient(env, f, host, random, stream, sent) && NotReopened(sent) && sent != []
    requires !HelloSent(host, random, sent[..|sent| - 1]) && HelloSent(host, random, sent)
    ensures Legal(states[j], events[j]) && events[j].Packet?
    ensures Verdict(env, max, states[j], events[j]) == Drop <==>
            if InTime(sent[..|sent| - 1]) then
              env.appOf(host) in env.blockedApps || Rules.UnderSomeRule(rules, Rules.Normalize(Chars(host)))
            else Unknown in env.blockedApps
  {
    hide *;
    OutcomeInRun(env, max, states, events, f, i, j, sent);
    AllOf(sent);
    RulesDecideHello(env, rules, f, host, random, stream, sent, |sent| - 1);
    EntryAndVerdict(env, max, f, states[j], events[j], states[j + 1], sent);
  }
}
