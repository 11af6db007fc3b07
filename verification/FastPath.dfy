/**
 One packet through a fast path: look the flow up, update it, run the TCP state machine, check the rules, inspect
 the payload, and reach a verdict. Packets are IPv4 packets that carry a flow key.
 */
module FastPath {
  import opened Bytes
  import opened Flows
  import opened AppTypes
  import opened FlowTable
  import Reassembly
  import ClientHello

  /** What a fast path reads of a packet; an empty payload stands for a null payload pointer. */
  datatype Job = Job(key: FlowKey, size: nat, tcpFlags: byte, seqNo: int, payload: bytes)

  predicate Ipv4(key: FlowKey) {
    key.src.V4? && key.dst.V4?
  }

  predicate Fin(flags: byte) { flags % 2 == 1 }
  predicate Syn(flags: byte) { flags / 2 % 2 == 1 }
  predicate Rst(flags: byte) { flags / 4 % 2 == 1 }
  predicate Ack(flags: byte) { flags / 16 % 2 == 1 }

  /** They are the bits 0x01, 0x02, 0x04 and 0x10. */
  lemma FlagsAreBits(flags: byte)
    ensures Fin(flags) <==> flags as bv8 & 0x01 != 0
    ensures Syn(flags) <==> flags as bv8 & 0x02 != 0
    ensures Rst(flags) <==> flags as bv8 & 0x04 != 0
    ensures Ack(flags) <==> flags as bv8 & 0x10 != 0
  {
  }

  /** The blocking rules, and the payload extractors that are not modelled here, as arbitrary functions. */
  datatype Env = Env(
    blockedIps: set<int>,
    blockedApps: set<AppType>,
    domainBlocked: bytes -> bool,
    appOf: bytes -> AppType,
    dnsQuery: bytes -> Option<bytes>,
    isQuicInitial: bytes -> bool,
    quicName: bytes -> Option<bytes>,
    isHttpRequest: bytes -> bool,
    httpHost: bytes -> Option<bytes>)
  {
    predicate IpBlocked(key: FlowKey)
      requires Ipv4(key)
    {
      key.src.ip in blockedIps || key.dst.ip in blockedIps
    }

    /** A classified flow that neither its application nor its domain blocks. */
    predicate Permits(conn: Connection) {
      && conn.app !in blockedApps
      && (conn.BestDomain() != [] ==> !domainBlocked(conn.BestDomain()))
    }
  }

  const REASSEMBLY_LIMIT: nat := 16 * 1024

  /** The packet travels in the direction of the packet that created the entry. */
  predicate FromClient(conn: Connection, key: FlowKey) {
    if conn.originalIsCanonical then key.Canonical() == key else key.Canonical() != key
  }

  /** updateTCPState */
  function TcpUpdated(conn: Connection, flags: byte): Connection {
    if Syn(flags) then
      if Ack(flags) then conn.(synAckSeen := true, state := if conn.synSeen then Established else conn.state)
      else conn.(synSeen := true)
    else if Fin(flags) then conn.(finSeen := true)
    else if Rst(flags) then conn.(state := Closed)
    else conn
  }

  /** The payload extractors of inspectPayload, in order; the flag says whether one of them classified the flow. */
  function Extracted(env: Env, conn: Connection, job: Job, fromClient: bool): (Connection, bool)
    requires job.payload != []
  {
    var k := conn.flowKey;
    if k.protocol == 17 then
      if k.srcPort == 53 || k.dstPort == 53 then
        match env.dnsQuery(job.payload)
        case Some(q) => (ClassifiedAs(conn, Dns, [], [], q), true)
        case None => (conn, false)
      else if env.isQuicInitial(job.payload) then
        match env.quicName(job.payload)
        case Some(sni) => (ClassifiedAs(conn, env.appOf(sni), sni, [], []), true)
        case None => (ClassifiedAs(conn, Quic, [], [], []), true)
      else (conn, false)
    else if k.protocol == 6 && fromClient then
      if k.srcPort == 80 || k.dstPort == 80 || env.isHttpRequest(job.payload) then
        match env.httpHost(job.payload)
        case Some(host) => (ClassifiedAs(conn, env.appOf(host), [], host, []), true)
        case None => (ClassifiedAs(conn, Http, [], [], []), true)
      else
        var answer := Reassembly.Answer(Reassembly.Wrapping, REASSEMBLY_LIMIT, conn.client, job.seqNo, job.payload);
        var after := Reassembly.Deliver(Reassembly.Wrapping, REASSEMBLY_LIMIT, conn.client, job.seqNo, job.payload);
        match answer
        case Found(sni) => (ClassifiedAs(conn.(client := Reassembly.Cleared(after)), env.appOf(sni), sni, [], []), true)
        case _ => (conn.(client := after), false)
    else (conn, false)
  }

  /** inspectPayload: after more than ten packets an unclassified flow is given up as unknown. */
  function Inspected(env: Env, conn: Connection, job: Job, fromClient: bool): Connection {
    if job.payload == [] then conn
    else
      var (c, classified) := Extracted(env, conn, job, fromClient);
      if !classified && c.packetsIn + c.packetsOut > 10 then ClassifiedAs(c, Unknown, [], [], []) else c
  }

  /** Entry and verdict after one packet, and whether it was newly classified or blocked. */
  datatype Outcome = Outcome(conn: Connection, verdict: PacketAction, classified: bool, blocked: bool)

  /** processPacket from the BLOCKED test on, for the entry after lookup, update and TCP state. */
  function Decide(env: Env, conn: Connection, job: Job, fromClient: bool): Outcome
    requires Ipv4(conn.flowKey)
  {
    if conn.state == Blocked then Outcome(conn, Drop, false, false)
    else if env.IpBlocked(conn.flowKey) then Outcome(BlockedConnection(conn), Drop, false, true)
    else
      var c := if conn.state == New || conn.state == Established then Inspected(env, conn, job, fromClient) else conn;
      var newly := conn.state != Classified && c.state == Classified;
      if c.state == Classified && !env.Permits(c) then Outcome(BlockedConnection(c), Drop, newly, true)
      else Outcome(c, Forward, newly, false)
  }

  /** The entry a packet meets once lookup, counting and TCP state are done. */
  function Met(found: Connection, job: Job, now: nat): (r: Connection)
    ensures r.flowKey == found.flowKey
  {
    var conn := Updated(found, job.size, FromClient(found, job.key), now);
    if job.key.protocol == 6 then TcpUpdated(conn, job.tcpFlags) else conn
  }

  datatype State = State(tracker: Tracker, processed: nat, forwarded: nat, dropped: nat)

  /** What happens to the packet's entry. */
  function OutcomeOf(env: Env, max: nat, s: State, job: Job, now: nat, order: seq<FlowKey>): Outcome
    requires Ipv4(job.key) && Enumerates(order, s.tracker.connections) && KeysMatch(s.tracker.connections)
  {
    var found := GetOrCreate(s.tracker, max, job.key, now, order).connections[job.key.Canonical()];
    Decide(env, Met(found, job, now), job, FromClient(found, job.key))
  }

  /** Entries are filed under their own canonical key. */
  predicate KeysMatch(table: Table) {
    forall k <- table :: table[k].flowKey == k && k.Canonical() == k
  }

  /** processPacket */
  function Process(env: Env, max: nat, s: State, job: Job, now: nat, order: seq<FlowKey>): State
    requires Ipv4(job.key) && Enumerates(order, s.tracker.connections) && KeysMatch(s.tracker.connections)
  {
    var t := GetOrCreate(s.tracker, max, job.key, now, order);
    var o := OutcomeOf(env, max, s, job, now, order);
    var tracker := Tracker(t.connections[job.key.Canonical() := o.conn], t.totalSeen,
                           t.classifiedCount + (if o.classified then 1 else 0),
                           t.blockedCount + (if o.blocked then 1 else 0));
    State(tracker, s.processed + 1,
          s.forwarded + (if o.verdict == Drop then 0 else 1), s.dropped + (if o.verdict == Drop then 1 else 0))
  }

  lemma GetOrCreateKeepsKeys(t: Tracker, max: nat, key: FlowKey, now: nat, order: seq<FlowKey>)
    requires Enumerates(order, t.connections) && KeysMatch(t.connections)
    ensures KeysMatch(GetOrCreate(t, max, key, now, order).connections)
  {
    CanonicalForgetsDirection(key);
  }

  /** The flag tells whether the flow's state became CLASSIFIED; nothing else about state or counts changes. */
  lemma ExtractedClassifies(env: Env, conn: Connection, job: Job, fromClient: bool)
    requires job.payload != []
    ensures var (c, f) := Extracted(env, conn, job, fromClient);
            && c.state == (if f then Classified else conn.state)
            && c.packetsIn == conn.packetsIn && c.packetsOut == conn.packetsOut && c.flowKey == conn.flowKey
  {
    hide ClassifiedAs, Reassembly.Answer, Reassembly.Deliver;
  }

  // ---------------------------------------------------------------- the class

  class FastPathProcessor {
    const tracker: ConnectionTracker
    var totalProcessed: nat
    var totalForwarded: nat
    var totalDropped: nat

    constructor (maxConnections: nat)
      ensures fresh(tracker) && tracker.maxConnections == maxConnections
      ensures Current() == State(Tracker(map[], 0, 0, 0), 0, 0, 0)
    {
      tracker := new ConnectionTracker(maxConnections);
      totalProcessed, totalForwarded, totalDropped := 0, 0, 0;
    }

    ghost function Current(): State
      reads this, tracker
    {
      State(tracker.Current(), totalProcessed, totalForwarded, totalDropped)
    }

    method UpdateTcpState(key: FlowKey, flags: byte)
      requires key in tracker.connections && tracker.connections[key].flowKey == key && key.Canonical() == key
      modifies tracker`connections
      ensures tracker.connections == old(tracker.connections)[key := TcpUpdated(old(tracker.connections)[key], flags)]
    {
      var conn := tracker.connections[key];
      if Syn(flags) {
        if Ack(flags) {
          conn := conn.(synAckSeen := true);
          if conn.synSeen { conn := conn.(state := Established); }
        } else {
          conn := conn.(synSeen := true);
        }
      } else if Fin(flags) {
        conn := conn.(finSeen := true);
      } else if Rst(flags) {
        tracker.CloseConnection(conn.flowKey);
        return;
      }
      tracker.connections := tracker.connections[key := conn];
    }

    /** The TCP branch of inspectPayload for traffic that is not HTTP: reassemble, and stop once a name is found. */
    method ReassembleClientHello(env: Env, key: FlowKey, job: Job) returns (classified: bool)
      requires key in tracker.connections && job.payload != []
      requires tracker.connections[key].flowKey.protocol == 6
      requires !(tracker.connections[key].flowKey.srcPort == 80 || tracker.connections[key].flowKey.dstPort == 80
               || env.isHttpRequest(job.payload))
      modifies tracker`connections, tracker`classifiedCount
      ensures var (c, f) := Extracted(env, old(tracker.connections)[key], job, true);
              tracker.connections == old(tracker.connections)[key := c] && classified == f
      ensures tracker.classifiedCount == old(tracker.classifiedCount)
                + if classified && old(tracker.connections)[key].state != Classified then 1 else 0
    {
      ghost var before := tracker.connections[key];
      var client := tracker.connections[key].client;
      var answer := Reassembly.Answer(Reassembly.Wrapping, REASSEMBLY_LIMIT, client, job.seqNo, job.payload);
      client := Reassembly.Deliver(Reassembly.Wrapping, REASSEMBLY_LIMIT, client, job.seqNo, job.payload);
      if answer.Found? {
        client := Reassembly.Cleared(client);
        tracker.connections := tracker.connections[key := tracker.connections[key].(client := client)];
        tracker.ClassifyConnection(key, env.appOf(answer.name), answer.name, [], []);
        classified := true;
      } else {
        tracker.connections := tracker.connections[key := tracker.connections[key].(client := client)];
        classified := false;
      }
    }

    /** The UDP branch of inspectPayload. */
    method InspectDatagram(env: Env, key: FlowKey, job: Job, fromClient: bool) returns (classified: bool)
      requires key in tracker.connections && job.payload != []
      requires tracker.connections[key].flowKey.protocol == 17
      modifies tracker`connections, tracker`classifiedCount
      ensures var (c, f) := Extracted(env, old(tracker.connections)[key], job, fromClient);
              tracker.connections == old(tracker.connections)[key := c] && classified == f
      ensures tracker.classifiedCount == old(tracker.classifiedCount)
                + if classified && old(tracker.connections)[key].state != Classified then 1 else 0
    {
      var k := tracker.connections[key].flowKey;
      classified := false;
      if k.srcPort == 53 || k.dstPort == 53 {
        var q := env.dnsQuery(job.payload);
        if q.Some? {
          tracker.ClassifyConnection(key, Dns, [], [], q.value);
          classified := true;
        }
      } else if env.isQuicInitial(job.payload) {
        var sni := env.quicName(job.payload);
        if sni.Some? {
          tracker.ClassifyConnection(key, env.appOf(sni.value), sni.value, [], []);
        } else {
          tracker.ClassifyConnection(key, Quic, [], [], []);
        }
        classified := true;
      }
    }

    /** The TCP branch of inspectPayload, client to server. */
    method InspectStream(env: Env, key: FlowKey, job: Job) returns (classified: bool)
      requires key in tracker.connections && job.payload != []
      requires tracker.connections[key].flowKey.protocol == 6
      modifies tracker`connections, tracker`classifiedCount
      ensures var (c, f) := Extracted(env, old(tracker.connections)[key], job, true);
              tracker.connections == old(tracker.connections)[key := c] && classified == f
      ensures tracker.classifiedCount == old(tracker.classifiedCount)
                + if classified && old(tracker.connections)[key].state != Classified then 1 else 0
    {
      var k := tracker.connections[key].flowKey;
      if k.srcPort == 80 || k.dstPort == 80 || env.isHttpRequest(job.payload) {
        var host := env.httpHost(job.payload);
        if host.Some? {
          tracker.ClassifyConnection(key, env.appOf(host.value), [], host.value, []);
        } else {
          tracker.ClassifyConnection(key, Http, [], [], []);
        }
        classified := true;
      } else {
        classified := ReassembleClientHello(env, key, job);
      }
    }

    method InspectPayload(env: Env, key: FlowKey, job: Job, fromClient: bool)
      requires key in tracker.connections && tracker.connections[key].state != Classified
      modifies tracker`connections, tracker`classifiedCount
      ensures var c := Inspected(env, old(tracker.connections)[key], job, fromClient);
              && tracker.connections == old(tracker.connections)[key := c]
              && tracker.classifiedCount == old(tracker.classifiedCount) + if c.state == Classified then 1 else 0
    {
      if job.payload == [] { return; }
      var classified := false;
      if tracker.connections[key].flowKey.protocol == 17 {
        classified := InspectDatagram(env, key, job, fromClient);
      } else if tracker.connections[key].flowKey.protocol == 6 && fromClient {
        classified := InspectStream(env, key, job);
      }
      ExtractedClassifies(env, old(tracker.connections)[key], job, fromClient);
      if !classified && tracker.connections[key].packetsIn + tracker.connections[key].packetsOut > 10 {
        tracker.ClassifyConnection(key, Unknown, [], [], []);
      }
    }

    method HandleAction(action: PacketAction)
      modifies this
      ensures totalProcessed == old(totalProcessed)
      ensures totalForwarded == old(totalForwarded) + if action == Drop then 0 else 1
      ensures totalDropped == old(totalDropped) + if action == Drop then 1 else 0
    {
      if action == Drop { totalDropped := totalDropped + 1; } else { totalForwarded := totalForwarded + 1; }
    }

    /** The rest of processPacket once the entry is looked up, counted and its TCP state updated. */
    method DecideLocked(env: Env, key: FlowKey, job: Job, fromClient: bool) returns (verdict: PacketAction)
      requires key in tracker.connections && Ipv4(tracker.connections[key].flowKey)
      modifies tracker
      ensures var o := Decide(env, old(tracker.connections)[key], job, fromClient);
              && verdict == o.verdict
              && tracker.connections == old(tracker.connections)[key := o.conn]
              && tracker.totalSeen == old(tracker.totalSeen)
              && tracker.classifiedCount == old(tracker.classifiedCount) + (if o.classified then 1 else 0)
              && tracker.blockedCount == old(tracker.blockedCount) + (if o.blocked then 1 else 0)
    {
      if tracker.connections[key].state == Blocked { return Drop; }
      if env.IpBlocked(tracker.connections[key].flowKey) {
        tracker.BlockConnection(key);
        return Drop;
      }
      if tracker.connections[key].state == New || tracker.connections[key].state == Established {
        InspectPayload(env, key, job, fromClient);
      }
      if tracker.connections[key].state == Classified {
        if tracker.connections[key].app in env.blockedApps {
          tracker.BlockConnection(key);
          return Drop;
        }
        var domain := tracker.connections[key].BestDomain();
        if domain != [] && env.domainBlocked(domain) {
          tracker.BlockConnection(key);
          return Drop;
        }
      }
      verdict := Forward;
    }

    /** The first part of processPacket: find or create the entry, count the packet, follow the TCP state. */
    method MeetConnection(job: Job, now: nat, order: seq<FlowKey>) returns (fromClient: bool)
      requires Enumerates(order, tracker.connections) && KeysMatch(tracker.connections)
      modifies tracker
      ensures var t := GetOrCreate(old(tracker.Current()), tracker.maxConnections, job.key, now, order);
              var found := t.connections[job.key.Canonical()];
              && fromClient == FromClient(found, job.key)
              && tracker.Current() == t.(connections := t.connections[job.key.Canonical() := Met(found, job, now)])
    {
      var key := job.key.Canonical();
      GetOrCreateKeepsKeys(tracker.Current(), tracker.maxConnections, job.key, now, order);
      tracker.GetOrCreateConnection(job.key, now, order);
      fromClient := FromClient(tracker.connections[key], job.key);
      tracker.UpdateConnection(key, job.size, fromClient, now);
      if job.key.protocol == 6 { UpdateTcpState(key, job.tcpFlags); }
    }

    method ProcessPacket(env: Env, job: Job, now: nat, order: seq<FlowKey>) returns (verdict: PacketAction)
      requires Ipv4(job.key) && Enumerates(order, tracker.connections) && KeysMatch(tracker.connections)
      modifies this, tracker
      ensures Current() == Process(env, tracker.maxConnections, old(Current()), job, now, order)
      ensures verdict == OutcomeOf(env, tracker.maxConnections, old(Current()), job, now, order).verdict
    {
      hide Decide, Met, GetOrCreate, FromClient;
      totalProcessed := totalProcessed + 1;
      GetOrCreateKeepsKeys(tracker.Current(), tracker.maxConnections, job.key, now, order);
      CanonicalForgetsDirection(job.key);
      var fromClient := MeetConnection(job, now, order);
      verdict := DecideLocked(env, job.key.Canonical(), job, fromClient);
      HandleAction(verdict);
    }
  }
}
