/**
 What is decided about a flow and what is not: an entry loses no name, its action tells whether the flow was ever
 blocked, and until something is decided it is blank and in the state its packets give it.
 */
module FlowMemory {
  import opened Bytes
  import opened Flows
  import opened AppTypes
  import opened FlowTable
  import opened FastPath
  import opened Verdicts
  import opened FlowHistory
  import FlowLedger
  import Inspection
  import Reassembly

  // ---------------------------------------------------------------- names

  /** No name the entry had is lost. */
  predicate KeepsNames(was: Connection, now: Connection) {
    && (was.sni != [] ==> now.sni != []) && (was.httpHost != [] ==> now.httpHost != [])
    && (was.dnsQuery != [] ==> now.dnsQuery != [])
  }

  lemma ClassifiedKeepsNames(c: Connection, app: AppType, sni: bytes, httpHost: bytes, dnsQuery: bytes)
    ensures KeepsNames(c, ClassifiedAs(c, app, sni, httpHost, dnsQuery))
  {
  }

  lemma ExtractedKeepsNames(env: Env, conn: Connection, job: Job, fromClient: bool)
    requires job.payload != []
    ensures KeepsNames(conn, Extracted(env, conn, job, fromClient).0)
  {
    hide Reassembly.Answer, Reassembly.Deliver, ClassifiedAs;
    forall c: Connection, app, sni, httpHost, dnsQuery
      ensures KeepsNames(c, ClassifiedAs(c, app, sni, httpHost, dnsQuery))
    {
      ClassifiedKeepsNames(c, app, sni, httpHost, dnsQuery);
    }
  }

  lemma InspectedKeepsNames(env: Env, conn: Connection, job: Job, fromClient: bool)
    ensures KeepsNames(conn, Inspected(env, conn, job, fromClient))
  {
    hide Extracted, ClassifiedAs;
    if job.payload != [] {
      ExtractedKeepsNames(env, conn, job, fromClient);
      ClassifiedKeepsNames(Extracted(env, conn, job, fromClient).0, Unknown, [], [], []);
    }
  }

  lemma DecideKeepsNames(env: Env, conn: Connection, job: Job, fromClient: bool)
    requires Ipv4(conn.flowKey)
    ensures KeepsNames(conn, Decide(env, conn, job, fromClient).conn)
  {
    hide Inspected, Env.Permits, Env.IpBlocked;
    InspectedKeepsNames(env, conn, job, fromClient);
  }

  lemma TcpKeepsNames(conn: Connection, flags: byte)
    ensures KeepsNames(conn, TcpUpdated(conn, flags))
  {
    hide Syn, Ack, Fin, Rst;
  }

  lemma MetKeepsNames(conn: Connection, job: Job, now: nat)
    ensures KeepsNames(conn, Met(conn, job, now))
  {
    hide FromClient, TcpUpdated;
    if job.key.protocol == 6 {
      TcpKeepsNames(Updated(conn, job.size, FromClient(conn, job.key), now), job.tcpFlags);
    }
  }

  lemma StepKeepsNames(env: Env, max: nat, s: State, e: Event, t: State, k: FlowKey)
    requires StepTo(env, max, s, e, t) && k in s.tracker.connections && k in t.tracker.connections
    ensures KeepsNames(s.tracker.connections[k], t.tracker.connections[k])
  {
    if Concerns(e, k) {
      hide Met, Decide, FromClient, FlowKey.Canonical, Evict;
      var conn := s.tracker.connections[k];
      Inspection.FoundIsBefore(env, max, s, e);
      FlowLedger.ProcessEffect(env, max, s, e.job, e.now, e.order);
      MetKeepsNames(conn, e.job, e.now);
      DecideKeepsNames(env, Met(conn, e.job, e.now), e.job, FromClient(conn, e.job.key));
    } else {
      OthersLeaveEntry(env, max, s, e, k);
    }
  }

  /** As long as an entry stays in the table, it keeps a name of every kind it once had. */
  lemma {:induction false} NamesStay(env: Env, max: nat, states: seq<State>, events: seq<Event>, i: nat, j: nat,
                                     k: FlowKey)
    requires IsRun(env, max, states, events) && i <= j < |states|
    requires forall n {:trigger states[n]} :: i <= n <= j ==> k in states[n].tracker.connections
    ensures KeepsNames(states[i].tracker.connections[k], states[j].tracker.connections[k])
  {
    hide StepTo, KeepsNames;
    if i == j {
      SameNames(states[i].tracker.connections[k]);
    } else {
      NamesStay(env, max, states, events, i, j - 1, k);
      assert StepTo(env, max, states[j - 1], events[j - 1], states[j]);
      assert k in states[j - 1].tracker.connections && k in states[j].tracker.connections;
      StepKeepsNames(env, max, states[j - 1], events[j - 1], states[j], k);
      NamesKeptTwice(states[i].tracker.connections[k], states[j - 1].tracker.connections[k],
                     states[j].tracker.connections[k]);
    }
  }

  lemma SameNames(c: Connection)
    ensures KeepsNames(c, c)
  {
  }

  lemma NamesKeptTwice(a: Connection, b: Connection, c: Connection)
    requires KeepsNames(a, b) && KeepsNames(b, c)
    ensures KeepsNames(a, c)
  {
  }

  // ---------------------------------------------------------------- before a flow is decided

  /** Since its entry was made, some packet left the flow blocked; or classified or blocked. */
  ghost predicate EverBlocked(states: seq<State>, n: nat, k: FlowKey)
    requires n < |states|
  {
    && k in states[n].tracker.connections
    && (states[n].tracker.connections[k].state == Blocked || (n > 0 && EverBlocked(states, n - 1, k)))
  }

  ghost predicate EverDecided(states: seq<State>, n: nat, k: FlowKey)
    requires n < |states|
  {
    && k in states[n].tracker.connections
    && (states[n].tracker.connections[k].state in {Classified, Blocked} || (n > 0 && EverDecided(states, n - 1, k)))
  }

  /** What an entry is as long as nothing was decided about its flow. */
  predicate Blank(conn: Connection) {
    conn.app == Unknown && Inspection.Nameless(conn) && conn.state !in {Classified, Blocked}
  }

  /** The entry's action is DROP exactly if its flow was blocked; until something is decided the entry is blank. */
  predicate Remembers(conn: Connection, blocked: bool, decided: bool) {
    && conn.action == (if blocked then Drop else Forward)
    && (conn.state == Blocked ==> blocked)
    && (!decided ==> Blank(conn))
  }

  lemma TcpRemembers(conn: Connection, flags: byte)
    ensures var r := TcpUpdated(conn, flags);
            && r.action == conn.action && r.app == conn.app
            && r.sni == conn.sni && r.httpHost == conn.httpHost && r.dnsQuery == conn.dnsQuery
            && (r.state == conn.state || r.state in {Established, Closed})
  {
    hide Syn, Ack, Fin, Rst;
  }

  lemma MetRemembers(conn: Connection, job: Job, now: nat)
    ensures var met := Met(conn, job, now);
            && met.action == conn.action && met.app == conn.app
            && met.sni == conn.sni && met.httpHost == conn.httpHost && met.dnsQuery == conn.dnsQuery
            && (met.state == conn.state || met.state in {Established, Closed})
  {
    hide FromClient, TcpUpdated;
    if job.key.protocol == 6 {
      TcpRemembers(Updated(conn, job.size, FromClient(conn, job.key), now), job.tcpFlags);
    }
  }

  lemma ClassifiedKeepsAction(c: Connection, app: AppType, sni: bytes, httpHost: bytes, dnsQuery: bytes)
    ensures ClassifiedAs(c, app, sni, httpHost, dnsQuery).action == c.action
  {
  }

  lemma ExtractedRemembers(env: Env, conn: Connection, job: Job, fromClient: bool)
    requires job.payload != []
    ensures var c := Extracted(env, conn, job, fromClient).0;
            c.action == conn.action && (c.state == Classified || c == conn.(client := c.client))
  {
    hide Reassembly.Answer, Reassembly.Deliver, ClassifiedAs;
    forall c: Connection, app, sni, httpHost, dnsQuery
      ensures ClassifiedAs(c, app, sni, httpHost, dnsQuery).action == c.action
    {
      ClassifiedKeepsAction(c, app, sni, httpHost, dnsQuery);
    }
  }

  lemma InspectedRemembers(env: Env, conn: Connection, job: Job, fromClient: bool)
    ensures var c := Inspected(env, conn, job, fromClient);
            c.action == conn.action && (c.state == Classified || (c.state == conn.state && (Blank(conn) ==> Blank(c))))
  {
    hide Extracted, ClassifiedAs;
    if job.payload != [] {
      ExtractedRemembers(env, conn, job, fromClient);
      ClassifiedKeepsAction(Extracted(env, conn, job, fromClient).0, Unknown, [], [], []);
    }
  }

  lemma DecideRemembers(env: Env, conn: Connection, job: Job, fromClient: bool)
    requires Ipv4(conn.flowKey)
    ensures var c := Decide(env, conn, job, fromClient).conn;
            && c.action == (if c.state == Blocked && conn.state != Blocked then Drop else conn.action)
            && (c.state in {Classified, Blocked} || (Blank(conn) ==> Blank(c)))
  {
    hide Inspected, Env.Permits, Env.IpBlocked, Blank;
    InspectedRemembers(env, conn, job, fromClient);
  }

  /** The entry of a packet's flow, from what it was. */
  lemma OwnPacketRemembers(env: Env, max: nat, s: State, e: Event, t: State, blocked: bool, decided: bool)
    requires StepTo(env, max, s, e, t) && e.Packet?
    requires Remembers(Inspection.Before(s, e.job, e.now), blocked, decided)
    ensures e.job.key.Canonical() in t.tracker.connections
    ensures var c := t.tracker.connections[e.job.key.Canonical()];
            Remembers(c, blocked || c.state == Blocked, decided || c.state in {Classified, Blocked})
  {
    hide Met, Decide, FromClient, FlowKey.Canonical, Evict, Inspection.Before;
    var conn := Inspection.Before(s, e.job, e.now);
    Inspection.FoundIsBefore(env, max, s, e);
    FlowLedger.ProcessEffect(env, max, s, e.job, e.now, e.order);
    MetRemembers(conn, e.job, e.now);
    DecideRemembers(env, Met(conn, e.job, e.now), e.job, FromClient(conn, e.job.key));
  }

  lemma NewIsBlank(key: FlowKey, now: nat)
    ensures Remembers(Created(key, now), false, false)
  {
  }

  lemma BeforeIs(s: State, job: Job, now: nat)
    ensures var k := job.key.Canonical();
            Inspection.Before(s, job, now)
            == if k in s.tracker.connections then s.tracker.connections[k] else Created(job.key, now)
  {
  }

  lemma StepRemembers(env: Env, max: nat, s: State, e: Event, t: State, k: FlowKey, blocked: bool, decided: bool)
    requires StepTo(env, max, s, e, t) && k in t.tracker.connections
    requires if k in s.tracker.connections then Remembers(s.tracker.connections[k], blocked, decided)
             else !blocked && !decided
    ensures var c := t.tracker.connections[k];
            Remembers(c, blocked || c.state == Blocked, decided || c.state in {Classified, Blocked})
  {
    if Concerns(e, k) {
      BeforeIs(s, e.job, e.now);
      NewIsBlank(e.job.key, e.now);
      OwnPacketRemembers(env, max, s, e, t, blocked, decided);
    } else {
      NoEntryFromOthers(env, max, s, e, k);
      OthersLeaveEntry(env, max, s, e, k);
    }
    hide Next, Legal, FlowKey.Canonical;
  }

  /** In every run an entry's action and its blankness tell what was decided about its flow. */
  lemma {:induction false} EntryRemembers(env: Env, max: nat, states: seq<State>, events: seq<Event>, n: nat,
                                          k: FlowKey)
    requires IsRun(env, max, states, events) && n < |states| && k in states[n].tracker.connections
    ensures Remembers(states[n].tracker.connections[k], EverBlocked(states, n, k), EverDecided(states, n, k))
    decreases n
  {
    hide StepTo, Remembers;
    assert n > 0;
    var s := states[n - 1];
    assert StepTo(env, max, s, events[n - 1], states[n]);
    if k in s.tracker.connections {
      EntryRemembers(env, max, states, events, n - 1, k);
      StepRemembers(env, max, s, events[n - 1], states[n], k, EverBlocked(states, n - 1, k),
        EverDecided(states, n - 1, k));
    } else {
      StepRemembers(env, max, s, events[n - 1], states[n], k, false, false);
    }
  }

  // ---------------------------------------------------------------- the state of an undecided flow

  predicate PlainReset(e: Event) {
    e.Packet? && e.job.key.protocol == 6 && Rst(e.job.tcpFlags) && !Syn(e.job.tcpFlags) && !Fin(e.job.tcpFlags)
  }

  /** The last SYN|ACK after a SYN, or plain reset, decides; without either the flow is new. */
  function StateAfter(h: seq<Event>): ConnectionState {
    if h == [] then New
    else
      var before, last := h[..|h| - 1], h[|h| - 1];
      if AnsweringSyn(last) && exists i :: 0 <= i < |before| && OpeningSyn(before[i]) then Established
      else if PlainReset(last) then Closed
      else StateAfter(before)
  }

  lemma StateAfterMore(h: seq<Event>, e: Event)
    ensures StateAfter(h + [e])
         == if AnsweringSyn(e) && exists i :: 0 <= i < |h| && OpeningSyn(h[i]) then Established
            else if PlainReset(e) then Closed else StateAfter(h)
  {
    assert (h + [e])[..|h|] == h;
  }

  lemma TcpState(conn: Connection, e: Event)
    requires e.Packet? && e.job.key.protocol == 6
    ensures TcpUpdated(conn, e.job.tcpFlags).state
         == if AnsweringSyn(e) && conn.synSeen then Established else if PlainReset(e) then Closed else conn.state
  {
    hide Syn, Ack, Fin, Rst;
  }

  lemma MetState(conn: Connection, e: Event)
    requires e.Packet?
    ensures Met(conn, e.job, e.now).state
         == if AnsweringSyn(e) && conn.synSeen then Established else if PlainReset(e) then Closed else conn.state
  {
    hide FromClient, TcpUpdated, Syn, Ack, Fin, Rst;
    if e.job.key.protocol == 6 { TcpState(Updated(conn, e.job.size, FromClient(conn, e.job.key), e.now), e); }
  }

  lemma DecideKeepsState(env: Env, conn: Connection, job: Job, fromClient: bool)
    requires Ipv4(conn.flowKey)
    ensures var c := Decide(env, conn, job, fromClient).conn;
            c.state in {Classified, Blocked} || c.state == conn.state
  {
    hide Inspected, Env.Permits, Env.IpBlocked;
    InspectedRemembers(env, conn, job, fromClient);
  }

  lemma OwnPacketState(env: Env, max: nat, s: State, e: Event, t: State, h: seq<Event>)
    requires StepTo(env, max, s, e, t) && e.Packet?
    requires var conn := Inspection.Before(s, e.job, e.now);
             conn.state == StateAfter(h) && (conn.synSeen <==> exists i :: 0 <= i < |h| && OpeningSyn(h[i]))
    ensures e.job.key.Canonical() in t.tracker.connections
    ensures var c := t.tracker.connections[e.job.key.Canonical()];
            c.state in {Classified, Blocked} || c.state == StateAfter(h + [e])
  {
    hide Met, Decide, FromClient, FlowKey.Canonical, Evict, Inspection.Before, StateAfter, OpeningSyn, AnsweringSyn;
    hide PlainReset;
    var conn := Inspection.Before(s, e.job, e.now);
    Inspection.FoundIsBefore(env, max, s, e);
    FlowLedger.ProcessEffect(env, max, s, e.job, e.now, e.order);
    MetState(conn, e);
    StateAfterMore(h, e);
    DecideKeepsState(env, Met(conn, e.job, e.now), e.job, FromClient(conn, e.job.key));
  }

  lemma NewState(key: FlowKey, now: nat)
    ensures Created(key, now).state == StateAfter([]) && !Created(key, now).synSeen
  {
  }

  lemma TellsSyn(conn: Connection, h: seq<Event>)
    requires Tells(conn, h)
    ensures conn.synSeen <==> exists i :: 0 <= i < |h| && OpeningSyn(h[i])
  {
    hide TellsCounts, OpeningSyn;
  }

  /** In every run the state of a flow about which nothing was decided is the one its packets give it. */
  lemma {:induction false} UndecidedState(env: Env, max: nat, states: seq<State>, events: seq<Event>, n: nat,
                                          k: FlowKey)
    requires IsRun(env, max, states, events) && n < |states| && k in states[n].tracker.connections
    requires !EverDecided(states, n, k)
    ensures states[n].tracker.connections[k].state == StateAfter(History(states, events, n, k))
    decreases n
  {
    hide StepTo, Tells, StateAfter, OpeningSyn, FlowKey.Canonical;
    assert n > 0;
    var s, e := states[n - 1], events[n - 1];
    assert StepTo(env, max, s, e, states[n]);
    var h := if k in s.tracker.connections then History(states, events, n - 1, k) else [];
    if k in s.tracker.connections {
      UndecidedState(env, max, states, events, n - 1, k);
      EntryTellsHistory(env, max, states, events, n - 1, k);
      TellsSyn(s.tracker.connections[k], h);
    }
    StepState(env, max, s, e, states[n], h, k);
  }

  lemma StepState(env: Env, max: nat, s: State, e: Event, t: State, h: seq<Event>, k: FlowKey)
    requires StepTo(env, max, s, e, t) && k in t.tracker.connections
    requires t.tracker.connections[k].state !in {Classified, Blocked}
    requires if k in s.tracker.connections then
               var conn := s.tracker.connections[k];
               conn.state == StateAfter(h) && (conn.synSeen <==> exists i :: 0 <= i < |h| && OpeningSyn(h[i]))
             else h == []
    ensures t.tracker.connections[k].state == StateAfter(if Concerns(e, k) then h + [e] else h)
  {
    hide StateAfter, OpeningSyn, Next, Legal, FlowKey.Canonical;
    if Concerns(e, k) {
      BeforeIs(s, e.job, e.now);
      NewState(e.job.key, e.now);
      OwnPacketState(env, max, s, e, t, h);
    } else {
      assert Legal(s, e) && t == Next(env, max, s, e);
      NoEntryFromOthers(env, max, s, e, k);
      OthersLeaveEntry(env, max, s, e, k);
    }
  }
}
