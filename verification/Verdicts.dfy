/** Verdicts over whole runs of one fast path: any packets, in any order, with cleanups at any time. */
module Verdicts {
  import Bytes
  import opened Flows
  import opened FlowTable
  import opened FastPath
  import Reassembly

  /** A packet is processed, with the table iterated in `order` if an entry must be evicted; or a cleanup runs. */
  datatype Event = Packet(job: Job, now: nat, order: seq<FlowKey>) | Cleanup(now: nat)

  const Idle: State := State(Tracker(map[], 0, 0, 0), 0, 0, 0)

  predicate Legal(s: State, e: Event) {
    && KeysMatch(s.tracker.connections)
    && (e.Packet? ==> Ipv4(e.job.key) && Enumerates(e.order, s.tracker.connections))
  }

  function Next(env: Env, max: nat, s: State, e: Event): State
    requires Legal(s, e)
  {
    match e
    case Packet(job, now, order) => Process(env, max, s, job, now, order)
    case Cleanup(now) => s.(tracker := s.tracker.(connections := Cleaned(s.tracker.connections, now)))
  }

  function Verdict(env: Env, max: nat, s: State, e: Event): PacketAction
    requires Legal(s, e) && e.Packet?
  {
    OutcomeOf(env, max, s, e.job, e.now, e.order).verdict
  }

  ghost predicate StepTo(env: Env, max: nat, s: State, e: Event, t: State) {
    Legal(s, e) && t == Next(env, max, s, e)
  }

  /** A run of the fast path under fixed rules. */
  ghost predicate IsRun(env: Env, max: nat, states: seq<State>, events: seq<Event>) {
    && |states| == |events| + 1
    && states[0] == Idle
    && forall i {:trigger events[i]} :: 0 <= i < |events| ==> StepTo(env, max, states[i], events[i], states[i + 1])
  }

  function Packets(events: seq<Event>): nat {
    if events == [] then 0
    else Packets(events[..|events| - 1]) + if events[|events| - 1].Packet? then 1 else 0
  }

  /** Blocked entries carry the drop action. */
  predicate BlockedMeansDrop(table: Table) {
    forall k <- table :: table[k].state == Blocked ==> table[k].action == Drop
  }

  predicate Sound(s: State) {
    KeysMatch(s.tracker.connections) && BlockedMeansDrop(s.tracker.connections)
      && s.processed == s.forwarded + s.dropped
  }

  // ---------------------------------------------------------------- one packet

  lemma DecideSound(env: Env, conn: Connection, job: Job, fromClient: bool)
    requires Ipv4(conn.flowKey) && (conn.state == Blocked ==> conn.action == Drop)
    ensures var o := Decide(env, conn, job, fromClient);
            && o.conn.flowKey == conn.flowKey
            && (o.conn.state == Blocked ==> o.conn.action == Drop)
            && (o.conn.state == Blocked ==> o.verdict == Drop)
            && (o.verdict == Drop || o.verdict == Forward)
  {
    if job.payload != [] { ExtractedClassifies(env, conn, job, fromClient); }
    hide Extracted;
  }

  /** Neither counting nor the TCP state machine touches the action, the application or the names. */
  predicate SameIdentity(a: Connection, b: Connection) {
    a.action == b.action && a.app == b.app && a.BestDomain() == b.BestDomain()
      && (a.state == Blocked ==> b.state == Blocked)
  }

  lemma UpdatedSound(conn: Connection, size: nat, fromClient: bool, now: nat)
    ensures SameIdentity(Updated(conn, size, fromClient, now), conn)
  {
  }

  lemma SameNamesSameDomain(a: Connection, b: Connection)
    requires a.sni == b.sni && a.httpHost == b.httpHost && a.dnsQuery == b.dnsQuery
    ensures a.BestDomain() == b.BestDomain()
  {
  }

  lemma TcpUpdatedSound(conn: Connection, flags: Bytes.byte)
    ensures SameIdentity(TcpUpdated(conn, flags), conn)
  {
    hide Syn, Ack, Fin, Rst, Connection.BestDomain;
    var r := TcpUpdated(conn, flags);
    if !Syn(flags) && !Fin(flags) && !Rst(flags) { return; }
    assert r.action == conn.action && r.app == conn.app;
    assert r.sni == conn.sni && r.httpHost == conn.httpHost && r.dnsQuery == conn.dnsQuery;
    SameNamesSameDomain(r, conn);
  }

  lemma MetSound(found: Connection, job: Job, now: nat)
    ensures SameIdentity(Met(found, job, now), found)
  {
    var fromClient := FromClient(found, job.key);
    UpdatedSound(found, job.size, fromClient, now);
    TcpUpdatedSound(Updated(found, job.size, fromClient, now), job.tcpFlags);
    hide Updated, TcpUpdated, FromClient;
  }

  lemma GetOrCreateSound(t: Tracker, max: nat, key: FlowKey, now: nat, order: seq<FlowKey>)
    requires Enumerates(order, t.connections) && KeysMatch(t.connections) && BlockedMeansDrop(t.connections)
    ensures var r := GetOrCreate(t, max, key, now, order).connections;
            && KeysMatch(r) && BlockedMeansDrop(r) && r[key.Canonical()].flowKey == key.Canonical()
  {
    GetOrCreateKeepsKeys(t, max, key, now, order);
  }

  lemma PacketSound(env: Env, max: nat, s: State, job: Job, now: nat, order: seq<FlowKey>)
    requires Legal(s, Packet(job, now, order)) && Sound(s)
    ensures Sound(Process(env, max, s, job, now, order))
  {
    hide Decide, Met, FromClient, GetOrCreate;
    CanonicalForgetsDirection(job.key);
    GetOrCreateSound(s.tracker, max, job.key, now, order);
    var found := GetOrCreate(s.tracker, max, job.key, now, order).connections[job.key.Canonical()];
    MetSound(found, job, now);
    DecideSound(env, Met(found, job, now), job, FromClient(found, job.key));
  }

  lemma StepSound(env: Env, max: nat, s: State, e: Event)
    requires Legal(s, e) && Sound(s)
    ensures Sound(Next(env, max, s, e))
  {
    hide Process;
    if e.Packet? { PacketSound(env, max, s, e.job, e.now, e.order); }
  }

  lemma {:induction false} RunSound(env: Env, max: nat, states: seq<State>, events: seq<Event>, n: nat)
    requires IsRun(env, max, states, events) && n < |states|
    ensures Sound(states[n])
  {
    hide Next;
    if n > 0 {
      RunSound(env, max, states, events, n - 1);
      assert StepTo(env, max, states[n - 1], events[n - 1], states[n]);
      StepSound(env, max, states[n - 1], events[n - 1]);
    }
  }

  lemma NextCounts(env: Env, max: nat, s: State, e: Event)
    requires Legal(s, e)
    ensures Next(env, max, s, e).processed == s.processed + if e.Packet? then 1 else 0
  {
    hide OutcomeOf, GetOrCreate;
  }

  /** Every packet is processed once and is either forwarded or dropped; blocked entries always carry DROP. */
  lemma {:induction false} EveryPacketHasOneVerdict(env: Env, max: nat, states: seq<State>, events: seq<Event>, n: nat)
    requires IsRun(env, max, states, events) && n < |states|
    ensures states[n].processed == Packets(events[..n]) == states[n].forwarded + states[n].dropped
    ensures BlockedMeansDrop(states[n].tracker.connections)
  {
    RunSound(env, max, states, events, n);
    ProcessedIsPackets(env, max, states, events, n);
    hide IsRun, Packets, BlockedMeansDrop;
  }

  lemma {:induction false} ProcessedIsPackets(env: Env, max: nat, states: seq<State>, events: seq<Event>, n: nat)
    requires IsRun(env, max, states, events) && n < |states|
    ensures states[n].processed == Packets(events[..n])
  {
    hide Next, Legal, Packets, StepTo;
    if n == 0 {
      NoPackets(events);
    } else {
      ProcessedIsPackets(env, max, states, events, n - 1);
      assert StepTo(env, max, states[n - 1], events[n - 1], states[n]);
      StepCounts(env, max, states[n - 1], events[n - 1], states[n]);
      PacketsStep(events, n - 1);
    }
  }

  lemma NoPackets(events: seq<Event>)
    ensures Packets(events[..0]) == 0
  {
  }

  lemma PacketsStep(events: seq<Event>, n: nat)
    requires n < |events|
    ensures Packets(events[..n + 1]) == Packets(events[..n]) + if events[n].Packet? then 1 else 0
  {
    assert events[..n + 1][..n] == events[..n];
  }

  lemma StepCounts(env: Env, max: nat, s: State, e: Event, t: State)
    requires StepTo(env, max, s, e, t)
    ensures t.processed == s.processed + if e.Packet? then 1 else 0
  {
    NextCounts(env, max, s, e);
    hide Next, Legal;
  }

  /** A packet with a blocked address at either end is dropped, whatever state its flow is in. */
  lemma BlockedAddressIsDropped(env: Env, max: nat, s: State, e: Event)
    requires Legal(s, e) && e.Packet? && env.IpBlocked(e.job.key)
    ensures Verdict(env, max, s, e) == Drop
  {
    CanonicalForgetsDirection(e.job.key);
    GetOrCreateKeepsKeys(s.tracker, max, e.job.key, e.now, e.order);
    hide Inspected, GetOrCreate;
  }

  // ---------------------------------------------------------------- address rules alone

  /** No application and no domain is blocked. */
  ghost predicate OnlyAddressRules(env: Env) {
    env.blockedApps == {} && forall name :: !env.domainBlocked(name)
  }

  /** Only flows with a blocked address are blocked. */
  predicate BlockedByAddress(env: Env, table: Table) {
    forall k <- table :: Ipv4(k) && (table[k].state == Blocked ==> env.IpBlocked(k))
  }

  lemma AddressesDecide(env: Env, conn: Connection, job: Job, fromClient: bool)
    requires OnlyAddressRules(env) && Ipv4(conn.flowKey) && (conn.state == Blocked ==> env.IpBlocked(conn.flowKey))
    ensures var o := Decide(env, conn, job, fromClient);
            && (o.verdict == Drop <==> env.IpBlocked(conn.flowKey))
            && (o.conn.state == Blocked ==> env.IpBlocked(conn.flowKey))
  {
    if job.payload != [] { ExtractedClassifies(env, conn, job, fromClient); }
    hide Extracted;
  }

  lemma FlowAddresses(env: Env, key: FlowKey)
    requires Ipv4(key)
    ensures Ipv4(key.Canonical()) && (env.IpBlocked(key.Canonical()) <==> env.IpBlocked(key))
  {
  }

  lemma MetStaysUnblocked(found: Connection, job: Job, now: nat)
    ensures Met(found, job, now).state == Blocked ==> found.state == Blocked
  {
    hide FromClient, Syn, Ack, Fin, Rst;
  }

  /** The table around an entry just created or found. */
  lemma CreatedUnblocked(env: Env, max: nat, s: State, job: Job, now: nat, order: seq<FlowKey>)
    requires Legal(s, Packet(job, now, order)) && BlockedByAddress(env, s.tracker.connections)
    ensures var table := GetOrCreate(s.tracker, max, job.key, now, order).connections;
            && BlockedByAddress(env, table) && job.key.Canonical() in table
            && table[job.key.Canonical()].flowKey == job.key.Canonical()
  {
    FlowAddresses(env, job.key);
    GetOrCreateKeepsKeys(s.tracker, max, job.key, now, order);
    hide FlowKey.Canonical, Env.IpBlocked;
  }

  lemma PacketByAddress(env: Env, max: nat, s: State, job: Job, now: nat, order: seq<FlowKey>)
    requires Legal(s, Packet(job, now, order)) && OnlyAddressRules(env)
    requires BlockedByAddress(env, s.tracker.connections)
    ensures Ipv4(job.key) && (OutcomeOf(env, max, s, job, now, order).verdict == Drop <==> env.IpBlocked(job.key))
    ensures BlockedByAddress(env, Process(env, max, s, job, now, order).tracker.connections)
  {
    hide Decide, Met, FromClient, GetOrCreate, FlowKey.Canonical, Env.IpBlocked, OnlyAddressRules;
    CreatedUnblocked(env, max, s, job, now, order);
    FlowAddresses(env, job.key);
    var found := GetOrCreate(s.tracker, max, job.key, now, order).connections[job.key.Canonical()];
    MetStaysUnblocked(found, job, now);
    AddressesDecide(env, Met(found, job, now), job, FromClient(found, job.key));
  }

  lemma StepByAddress(env: Env, max: nat, s: State, e: Event, t: State)
    requires StepTo(env, max, s, e, t) && OnlyAddressRules(env) && BlockedByAddress(env, s.tracker.connections)
    ensures BlockedByAddress(env, t.tracker.connections)
    ensures Legal(s, e)
    ensures e.Packet? ==> Ipv4(e.job.key) && (Verdict(env, max, s, e) == Drop <==> env.IpBlocked(e.job.key))
  {
    hide Process, OutcomeOf, Env.IpBlocked;
    if e.Packet? { PacketByAddress(env, max, s, e.job, e.now, e.order); }
  }

  lemma {:induction false} RunByAddress(env: Env, max: nat, states: seq<State>, events: seq<Event>, n: nat)
    requires IsRun(env, max, states, events) && n < |states| && OnlyAddressRules(env)
    ensures BlockedByAddress(env, states[n].tracker.connections)
  {
    hide StepTo, OnlyAddressRules;
    if n > 0 {
      RunByAddress(env, max, states, events, n - 1);
      assert StepTo(env, max, states[n - 1], events[n - 1], states[n]);
      StepByAddress(env, max, states[n - 1], events[n - 1], states[n]);
    }
  }

  /**
   Without application and domain rules a packet's verdict is its own, whatever came before it: it is dropped exactly
   if one of its addresses is blocked.
   */
  lemma AddressRulesDecide(env: Env, max: nat, states: seq<State>, events: seq<Event>, n: nat)
    requires IsRun(env, max, states, events) && n < |events| && OnlyAddressRules(env) && events[n].Packet?
    ensures Legal(states[n], events[n]) && Ipv4(events[n].job.key)
    ensures Verdict(env, max, states[n], events[n]) == Drop <==> env.IpBlocked(events[n].job.key)
  {
    hide OnlyAddressRules, Verdict, Legal, Next, Env.IpBlocked;
    RunByAddress(env, max, states, events, n);
    assert StepTo(env, max, states[n], events[n], states[n + 1]);
    StepByAddress(env, max, states[n], events[n], states[n + 1]);
  }

  // ---------------------------------------------------------------- blocked and classified flows

  /** The two packets that move a flow's state on unconditionally: a SYN|ACK after a SYN, and an RST. */
  predicate MovesOn(conn: Connection, job: Job) {
    && job.key.protocol == 6
    && ((Syn(job.tcpFlags) && Ack(job.tcpFlags) && conn.synSeen)
        || (!Syn(job.tcpFlags) && !Fin(job.tcpFlags) && Rst(job.tcpFlags)))
  }

  /** Exactly these packets take an entry out of its state before the verdict is reached. */
  lemma StateKeptIffNotMovedOn(found: Connection, job: Job, now: nat)
    requires found.state != Established && found.state != Closed
    ensures Met(found, job, now).state == found.state <==> !MovesOn(found, job)
    ensures MovesOn(found, job) ==> Met(found, job, now).state == if Syn(job.tcpFlags) then Established else Closed
  {
  }

  /** Blocking is not absorbing: a bare SYN|ACK on a blocked flow whose SYN was seen is forwarded. */
  lemma SynAckEscapesBlock(env: Env, max: nat, s: State, e: Event)
    requires Legal(s, e) && e.Packet? && e.job.key.Canonical() in s.tracker.connections
    requires var conn := s.tracker.connections[e.job.key.Canonical()]; conn.state == Blocked && conn.synSeen
    requires e.job.key.protocol == 6 && Syn(e.job.tcpFlags) && Ack(e.job.tcpFlags) && e.job.payload == []
    requires !env.IpBlocked(e.job.key)
    ensures Verdict(env, max, s, e) == Forward
    ensures Next(env, max, s, e).tracker.connections[e.job.key.Canonical()].state == Established
  {
    CanonicalForgetsDirection(e.job.key);
  }

  /** Event e is a packet of flow k. */
  predicate Concerns(e: Event, k: FlowKey) {
    e.Packet? && e.job.key.Canonical() == k
  }

  predicate Moved(s: State, e: Event, k: FlowKey) {
    Concerns(e, k) && k in s.tracker.connections && MovesOn(s.tracker.connections[k], e.job)
  }

  /**
   The packet settles what its TCP flow is: it carries payload, and either it is the client's and names a host or is
   HTTP, or the flow has had ten packets before.
   */
  predicate Settles(env: Env, conn: Connection, job: Job) {
    && job.payload != []
    && ((FromClient(conn, job.key)
         && (conn.flowKey.srcPort == 80 || conn.flowKey.dstPort == 80 || env.isHttpRequest(job.payload)
             || Reassembly.Answer(Reassembly.Wrapping, REASSEMBLY_LIMIT, conn.client, job.seqNo, job.payload).Found?))
        || conn.packetsIn + conn.packetsOut >= 10)
  }

  /** Inspection classifies an unclassified TCP flow exactly on such a packet. */
  lemma InspectionSettlesIff(env: Env, conn: Connection, job: Job, now: nat)
    requires conn.flowKey.protocol == 6
    requires var state := Met(conn, job, now).state; state == New || state == Established
    ensures Inspected(env, Met(conn, job, now), job, FromClient(conn, job.key)).state == Classified
            <==> Settles(env, conn, job)
  {
    var met := Met(conn, job, now);
    MetCounts(conn, job, now);
    hide Met, FromClient, Reassembly.Answer, Reassembly.Deliver;
  }

  lemma MetCounts(conn: Connection, job: Job, now: nat)
    ensures var met := Met(conn, job, now);
            met.packetsIn + met.packetsOut == conn.packetsIn + conn.packetsOut + 1 && met.client == conn.client
  {
    hide FromClient, Syn, Ack, Fin, Rst;
    var counted := Updated(conn, job.size, FromClient(conn, job.key), now);
    assert counted.packetsIn + counted.packetsOut == conn.packetsIn + conn.packetsOut + 1;
    TcpKeepsCounts(counted, job.tcpFlags);
    hide Updated, TcpUpdated;
  }

  lemma TcpKeepsCounts(conn: Connection, flags: Bytes.byte)
    ensures var r := TcpUpdated(conn, flags);
            r.packetsIn == conn.packetsIn && r.packetsOut == conn.packetsOut && r.client == conn.client
  {
    hide Syn, Ack, Fin, Rst;
  }

  /** What a packet of a blocked flow meets with: DROP, unless it moves the flow on and no rule stops it there. */
  lemma BlockedFlowVerdict(env: Env, max: nat, s: State, e: Event)
    requires Legal(s, e) && e.Packet? && e.job.key.Canonical() in s.tracker.connections
    requires s.tracker.connections[e.job.key.Canonical()].state == Blocked
    ensures var conn := s.tracker.connections[e.job.key.Canonical()];
            Verdict(env, max, s, e) == Forward <==>
            && MovesOn(conn, e.job) && !env.IpBlocked(e.job.key)
            && (Syn(e.job.tcpFlags) && Settles(env, conn, e.job) ==>
                  env.Permits(Inspected(env, Met(conn, e.job, e.now), e.job, FromClient(conn, e.job.key))))
  {
    hide Met, Inspected, FlowKey.Canonical, FromClient, Settles, Verdict, Legal;
    var conn := s.tracker.connections[e.job.key.Canonical()];
    StateKeptIffNotMovedOn(conn, e.job, e.now);
    TrackedVerdict(env, max, s, e);
    if MovesOn(conn, e.job) && Syn(e.job.tcpFlags) { InspectionSettlesIff(env, conn, e.job, e.now); }
  }

  /** The verdict on a packet of a tracked flow is decided from its entry. */
  lemma TrackedVerdict(env: Env, max: nat, s: State, e: Event)
    requires Legal(s, e) && e.Packet? && e.job.key.Canonical() in s.tracker.connections
    ensures Ipv4(e.job.key)
    ensures var conn := s.tracker.connections[e.job.key.Canonical()];
            && Ipv4(conn.flowKey) && conn.flowKey.protocol == e.job.key.protocol
            && (env.IpBlocked(conn.flowKey) <==> env.IpBlocked(e.job.key))
            && Verdict(env, max, s, e)
            == Decide(env, Met(conn, e.job, e.now), e.job, FromClient(conn, e.job.key)).verdict
  {
    CanonicalForgetsDirection(e.job.key);
    hide Met, Decide, FromClient;
  }

  /** An RST on a blocked flow is forwarded unless an address is blocked, and leaves the flow closed. */
  lemma ResetEscapesBlock(env: Env, max: nat, s: State, e: Event)
    requires Legal(s, e) && e.Packet? && e.job.key.Canonical() in s.tracker.connections && e.job.key.protocol == 6
    requires s.tracker.connections[e.job.key.Canonical()].state == Blocked
    requires Rst(e.job.tcpFlags) && !Syn(e.job.tcpFlags) && !Fin(e.job.tcpFlags)
    ensures Verdict(env, max, s, e) == if env.IpBlocked(e.job.key) then Drop else Forward
    ensures !env.IpBlocked(e.job.key) ==>
              Next(env, max, s, e).tracker.connections[e.job.key.Canonical()].state == Closed
  {
    var conn := s.tracker.connections[e.job.key.Canonical()];
    StateKeptIffNotMovedOn(conn, e.job, e.now);
    CanonicalForgetsDirection(e.job.key);
    hide Met, Inspected, FlowKey.Canonical, FromClient;
  }

  /** Other packets and cleanups leave a surviving entry as it is. */
  lemma OthersLeaveEntry(env: Env, max: nat, s: State, e: Event, k: FlowKey)
    requires Legal(s, e) && !Concerns(e, k) && k in s.tracker.connections
    requires k in Next(env, max, s, e).tracker.connections
    ensures Next(env, max, s, e).tracker.connections[k] == s.tracker.connections[k]
  {
    hide OutcomeOf;
  }

  /** A packet of a blocked flow that does not move it on is dropped and leaves it blocked. */
  lemma BlockedPacketDropped(env: Env, max: nat, s: State, e: Event, k: FlowKey)
    requires Legal(s, e) && Concerns(e, k) && k in s.tracker.connections
    requires s.tracker.connections[k].state == Blocked && !MovesOn(s.tracker.connections[k], e.job)
    ensures Verdict(env, max, s, e) == Drop
    ensures Next(env, max, s, e).tracker.connections[k].state == Blocked
  {
    CanonicalForgetsDirection(e.job.key);
    StateKeptIffNotMovedOn(s.tracker.connections[k], e.job, e.now);
    hide Met, Inspected;
  }

  /** The flow is in the table after each of the events from i up to (not including) j, and none moves it on. */
  ghost predicate Undisturbed(states: seq<State>, events: seq<Event>, i: nat, j: nat, k: FlowKey)
    requires i <= j < |states| == |events| + 1
  {
    && (forall n {:trigger states[n]} :: i <= n <= j ==> k in states[n].tracker.connections)
    && (forall n {:trigger events[n]} :: i <= n < j ==> !Moved(states[n], events[n], k))
  }

  /** A tracked blocked flow drops every packet, until one moves it on. */
  lemma {:induction false} BlockedFlowDropsEverything(env: Env, max: nat, states: seq<State>, events: seq<Event>,
                                                      i: nat, j: nat, k: FlowKey)
    requires IsRun(env, max, states, events) && i <= j < |states|
    requires Undisturbed(states, events, i, j, k) && states[i].tracker.connections[k].state == Blocked
    ensures k in states[j].tracker.connections && states[j].tracker.connections[k].state == Blocked
    ensures forall n :: i <= n < j && Concerns(events[n], k) ==>
              Legal(states[n], events[n]) && Verdict(env, max, states[n], events[n]) == Drop
  {
    hide Next, Verdict, Legal, MovesOn;
    if i < j {
      assert Undisturbed(states, events, i, j - 1, k);
      BlockedFlowDropsEverything(env, max, states, events, i, j - 1, k);
      var s, e := states[j - 1], events[j - 1];
      assert StepTo(env, max, s, e, states[j]);
      if Concerns(e, k) { BlockedPacketDropped(env, max, s, e, k); } else { OthersLeaveEntry(env, max, s, e, k); }
    }
  }

  /** A classified flow that the rules permit. */
  predicate Permitted(env: Env, conn: Connection)
    requires Ipv4(conn.flowKey)
  {
    conn.state == Classified && env.Permits(conn) && !env.IpBlocked(conn.flowKey)
  }

  /** A packet that leaves its flow classified and is forwarded leaves it permitted by the rules. */
  lemma ForwardedMeansPermitted(env: Env, max: nat, s: State, e: Event)
    requires Legal(s, e) && e.Packet? && Verdict(env, max, s, e) == Forward
    requires Next(env, max, s, e).tracker.connections[e.job.key.Canonical()].state == Classified
    ensures var conn := Next(env, max, s, e).tracker.connections[e.job.key.Canonical()];
            Ipv4(conn.flowKey) && Permitted(env, conn)
  {
    var k := e.job.key.Canonical();
    CanonicalForgetsDirection(e.job.key);
    GetOrCreateKeepsKeys(s.tracker, max, e.job.key, e.now, e.order);
    var found := GetOrCreate(s.tracker, max, e.job.key, e.now, e.order).connections[k];
    var conn := Met(found, e.job, e.now);
    if e.job.payload != [] { ExtractedClassifies(env, conn, e.job, FromClient(found, e.job.key)); }
    hide Extracted, Met, GetOrCreate;
  }

  lemma PermittedPacketForwarded(env: Env, max: nat, s: State, e: Event, k: FlowKey)
    requires Legal(s, e) && Concerns(e, k) && k in s.tracker.connections
    requires Ipv4(k) && Permitted(env, s.tracker.connections[k]) && !MovesOn(s.tracker.connections[k], e.job)
    ensures Verdict(env, max, s, e) == Forward
    ensures var conn, was := Next(env, max, s, e).tracker.connections[k], s.tracker.connections[k];
            && conn.flowKey == k && Permitted(env, conn) && conn.app == was.app && conn.BestDomain() == was.BestDomain()
  {
    CanonicalForgetsDirection(e.job.key);
    var found := s.tracker.connections[k];
    MetSound(found, e.job, e.now);
    StateKeptIffNotMovedOn(found, e.job, e.now);
    hide Met, Inspected;
  }

  /** The entry of flow k is still permitted, with the application and the domain it had. */
  ghost predicate StillPermitted(env: Env, first: Connection, table: Table, k: FlowKey) {
    && k in table && Ipv4(k)
    && table[k].flowKey == k && Permitted(env, table[k])
    && table[k].app == first.app && table[k].BestDomain() == first.BestDomain()
  }

  /** One event keeps it so, unless it moves the flow on; a packet of the flow is forwarded. */
  lemma StaysPermitted(env: Env, max: nat, s: State, e: Event, t: State, first: Connection, k: FlowKey)
    requires StepTo(env, max, s, e, t) && StillPermitted(env, first, s.tracker.connections, k)
    requires !Moved(s, e, k) && k in t.tracker.connections
    ensures StillPermitted(env, first, t.tracker.connections, k)
    ensures Legal(s, e) && (Concerns(e, k) ==> Verdict(env, max, s, e) == Forward)
  {
    if Concerns(e, k) { PermittedPacketForwarded(env, max, s, e, k); } else { OthersLeaveEntry(env, max, s, e, k); }
    hide Next, Verdict, MovesOn, Permitted;
  }

  /** Under fixed rules a surviving classified flow keeps its application, domain and FORWARD verdict. */
  lemma {:induction false} ClassifiedFlowKeepsVerdict(env: Env, max: nat, states: seq<State>, events: seq<Event>,
                                                      i: nat, j: nat, k: FlowKey)
    requires IsRun(env, max, states, events) && i <= j < |states|
    requires Undisturbed(states, events, i, j, k)
    requires StillPermitted(env, states[i].tracker.connections[k], states[i].tracker.connections, k)
    ensures StillPermitted(env, states[i].tracker.connections[k], states[j].tracker.connections, k)
    ensures forall n :: i <= n < j && Concerns(events[n], k) ==>
              Legal(states[n], events[n]) && Verdict(env, max, states[n], events[n]) == Forward
  {
    hide Next, Verdict, Legal, Moved, StepTo, StillPermitted;
    if i < j {
      assert Undisturbed(states, events, i, j - 1, k);
      ClassifiedFlowKeepsVerdict(env, max, states, events, i, j - 1, k);
      assert StepTo(env, max, states[j - 1], events[j - 1], states[j]);
      assert k in states[j].tracker.connections;
      StaysPermitted(env, max, states[j - 1], events[j - 1], states[j], states[i].tracker.connections[k], k);
    }
  }
}
