/**
 What processPacket makes of HTTP, DNS and QUIC packets that reach inspection, and of packets that say nothing: the
 entry they leave in the table, and the verdict the rules give it.
 */
module Inspection {
  import opened Bytes
  import opened Flows
  import opened AppTypes
  import opened FlowTable
  import opened FastPath
  import opened Verdicts
  import DnsQueries = Dns
  import Reassembly
  import HttpHost
  import Rules
  import Text
  import SegmentedHello

  /** The flow's entry before a packet: the table's, or the one the packet creates. */
  function Before(s: State, job: Job, now: nat): Connection {
    var k := job.key.Canonical();
    if k in s.tracker.connections then s.tracker.connections[k] else Created(job.key, now)
  }

  predicate Nameless(conn: Connection) {
    conn.sni == [] && conn.httpHost == [] && conn.dnsQuery == []
  }

  /** A packet with payload on a flow not decided yet, with no address blocked, and no reset. */
  predicate ReachesInspection(env: Env, s: State, e: Event)
    requires Legal(s, e) && e.Packet?
  {
    var conn := Before(s, e.job, e.now);
    && e.job.payload != [] && !env.IpBlocked(e.job.key)
    && (conn.state == New || conn.state == Established) && Nameless(conn)
    && (e.job.key.protocol == 6 && Rst(e.job.tcpFlags) ==> Syn(e.job.tcpFlags) || Fin(e.job.tcpFlags))
  }

  predicate OnPort(key: FlowKey, port: int) {
    key.srcPort == port || key.dstPort == port
  }

  /** The name of a flow by the precedence of its three kinds. */
  function BestName(sni: bytes, httpHost: bytes, dnsQuery: bytes): bytes {
    if sni != [] then sni else if httpHost != [] then httpHost else dnsQuery
  }

  /** A rule blocks the application or the name. */
  predicate RulesBlock(env: Env, app: AppType, name: bytes) {
    app in env.blockedApps || (name != [] && env.domainBlocked(name))
  }

  /** The entry is classified so, with these names; blocked, and the packet dropped, exactly if a rule says so. */
  predicate ClassifiedWith(env: Env, o: Outcome, app: AppType, sni: bytes, httpHost: bytes, dnsQuery: bytes) {
    && o.conn.app == app && o.conn.sni == sni && o.conn.httpHost == httpHost && o.conn.dnsQuery == dnsQuery
    && o.classified
    && if RulesBlock(env, app, BestName(sni, httpHost, dnsQuery)) then
         o.verdict == Drop && o.conn.state == Blocked && o.conn.action == Drop && o.blocked
       else
         o.verdict == Forward && o.conn.state == Classified && !o.blocked
  }

  // ---------------------------------------------------------------- one entry

  /** What inspection classifies is put before the rules. */
  lemma ClassificationDecides(env: Env, conn: Connection, job: Job, fromClient: bool, app: AppType, sni: bytes,
                              httpHost: bytes, dnsQuery: bytes)
    requires Ipv4(conn.flowKey) && !env.IpBlocked(conn.flowKey) && Nameless(conn)
    requires conn.state == New || conn.state == Established
    requires Inspected(env, conn, job, fromClient) == ClassifiedAs(conn, app, sni, httpHost, dnsQuery)
    ensures ClassifiedWith(env, Decide(env, conn, job, fromClient), app, sni, httpHost, dnsQuery)
  {
    hide Inspected;
  }

  lemma HttpEntry(env: Env, conn: Connection, job: Job)
    requires Ipv4(conn.flowKey) && !env.IpBlocked(conn.flowKey) && Nameless(conn)
    requires conn.state == New || conn.state == Established
    requires job.payload != [] && conn.flowKey.protocol == 6
    requires OnPort(conn.flowKey, 80) || env.isHttpRequest(job.payload)
    ensures var o := Decide(env, conn, job, true);
            match env.httpHost(job.payload)
            case Some(host) => ClassifiedWith(env, o, env.appOf(host), [], host, [])
            case None => ClassifiedWith(env, o, Http, [], [], [])
  {
    var host := env.httpHost(job.payload);
    var app := if host.Some? then env.appOf(host.value) else Http;
    var name := if host.Some? then host.value else [];
    HttpInspected(env, conn, job, app, name);
    hide Decide, ClassifiedAs, Inspected;
    ClassificationDecides(env, conn, job, true, app, [], name, []);
  }

  lemma HttpInspected(env: Env, conn: Connection, job: Job, app: AppType, name: bytes)
    requires job.payload != [] && conn.flowKey.protocol == 6
    requires OnPort(conn.flowKey, 80) || env.isHttpRequest(job.payload)
    requires match env.httpHost(job.payload)
             case Some(host) => app == env.appOf(host) && name == host
             case None => app == Http && name == []
    ensures Inspected(env, conn, job, true) == ClassifiedAs(conn, app, [], name, [])
  {
    hide ClassifiedAs;
  }

  lemma DnsEntry(env: Env, conn: Connection, job: Job, fromClient: bool)
    requires Ipv4(conn.flowKey) && !env.IpBlocked(conn.flowKey) && Nameless(conn)
    requires conn.state == New || conn.state == Established
    requires job.payload != [] && conn.flowKey.protocol == 17 && OnPort(conn.flowKey, 53)
    requires env.dnsQuery(job.payload).Some?
    ensures ClassifiedWith(env, Decide(env, conn, job, fromClient), Dns, [], [], env.dnsQuery(job.payload).value)
  {
    DnsInspected(env, conn, job, fromClient);
    hide Decide, ClassifiedAs, Inspected;
    ClassificationDecides(env, conn, job, fromClient, Dns, [], [], env.dnsQuery(job.payload).value);
  }

  lemma DnsInspected(env: Env, conn: Connection, job: Job, fromClient: bool)
    requires job.payload != [] && conn.flowKey.protocol == 17 && OnPort(conn.flowKey, 53)
    requires env.dnsQuery(job.payload).Some?
    ensures Inspected(env, conn, job, fromClient) == ClassifiedAs(conn, Dns, [], [], env.dnsQuery(job.payload).value)
  {
    hide ClassifiedAs;
  }

  lemma QuicEntry(env: Env, conn: Connection, job: Job, fromClient: bool)
    requires Ipv4(conn.flowKey) && !env.IpBlocked(conn.flowKey) && Nameless(conn)
    requires conn.state == New || conn.state == Established
    requires job.payload != [] && conn.flowKey.protocol == 17 && !OnPort(conn.flowKey, 53)
    requires env.isQuicInitial(job.payload)
    ensures var o := Decide(env, conn, job, fromClient);
            match env.quicName(job.payload)
            case Some(sni) => ClassifiedWith(env, o, env.appOf(sni), sni, [], [])
            case None => ClassifiedWith(env, o, Quic, [], [], [])
  {
    var sni := env.quicName(job.payload);
    var app := if sni.Some? then env.appOf(sni.value) else Quic;
    var name := if sni.Some? then sni.value else [];
    QuicInspected(env, conn, job, fromClient, app, name);
    hide Decide, ClassifiedAs, Inspected;
    ClassificationDecides(env, conn, job, fromClient, app, name, [], []);
  }

  lemma QuicInspected(env: Env, conn: Connection, job: Job, fromClient: bool, app: AppType, name: bytes)
    requires job.payload != [] && conn.flowKey.protocol == 17 && !OnPort(conn.flowKey, 53)
    requires env.isQuicInitial(job.payload)
    requires match env.quicName(job.payload)
             case Some(sni) => app == env.appOf(sni) && name == sni
             case None => app == Quic && name == []
    ensures Inspected(env, conn, job, fromClient) == ClassifiedAs(conn, app, name, [], [])
  {
    hide ClassifiedAs;
  }

  /** No extractor looks at the packet, or the one that does finds nothing: it is not a TCP client's. */
  predicate SaysNothing(env: Env, job: Job, fromClient: bool) {
    if job.key.protocol == 17 then
      if OnPort(job.key, 53) then env.dnsQuery(job.payload).None? else !env.isQuicInitial(job.payload)
    else job.key.protocol != 6 || !fromClient
  }

  lemma SilentEntry(env: Env, conn: Connection, job: Job, fromClient: bool)
    requires Ipv4(conn.flowKey) && !env.IpBlocked(conn.flowKey) && Nameless(conn)
    requires conn.state == New || conn.state == Established
    requires job.payload != [] && SaysNothing(env, job, fromClient)
    requires conn.flowKey.protocol == job.key.protocol && (OnPort(conn.flowKey, 53) <==> OnPort(job.key, 53))
    ensures var o := Decide(env, conn, job, fromClient);
            if conn.packetsIn + conn.packetsOut > 10 then ClassifiedWith(env, o, Unknown, [], [], [])
            else o == Outcome(conn, Forward, false, false)
  {
    assert Inspected(env, conn, job, fromClient)
        == if conn.packetsIn + conn.packetsOut > 10 then ClassifiedAs(conn, Unknown, [], [], []) else conn;
    hide Inspected, ClassifiedAs;
    if conn.packetsIn + conn.packetsOut > 10 {
      ClassificationDecides(env, conn, job, fromClient, Unknown, [], [], []);
      hide Decide;
    }
  }

  // ---------------------------------------------------------------- one packet

  lemma SamePorts(key: FlowKey, port: int)
    ensures OnPort(key.Canonical(), port) <==> OnPort(key, port)
    ensures key.Canonical().protocol == key.protocol
  {
  }

  /** What the packet finds when it reaches inspection. */
  lemma Meets(env: Env, max: nat, s: State, e: Event)
    requires Legal(s, e) && e.Packet? && ReachesInspection(env, s, e)
    ensures var conn := Before(s, e.job, e.now);
            var met := Met(conn, e.job, e.now);
            && met.flowKey == e.job.key.Canonical() && Ipv4(met.flowKey) && !env.IpBlocked(met.flowKey)
            && Nameless(met) && (met.state == New || met.state == Established) && met.client == conn.client
            && met.packetsIn + met.packetsOut == conn.packetsIn + conn.packetsOut + 1
            && OutcomeOf(env, max, s, e.job, e.now, e.order) == Decide(env, met, e.job, FromClient(conn, e.job.key))
  {
    hide *;
    var conn := Before(s, e.job, e.now);
    BeforeFacts(env, s, e);
    MetCounts(conn, e.job, e.now);
    MetStays(conn, e.job, e.now);
    FoundIsBefore(env, max, s, e);
    FlowAddresses(env, e.job.key);
  }

  lemma BeforeFacts(env: Env, s: State, e: Event)
    requires Legal(s, e) && e.Packet? && ReachesInspection(env, s, e)
    ensures var conn := Before(s, e.job, e.now);
            && Ipv4(e.job.key) && conn.flowKey == e.job.key.Canonical() && !env.IpBlocked(e.job.key) && Nameless(conn)
            && (conn.state == New || conn.state == Established) && NoReset(e.job)
  {
  }

  predicate NoReset(job: Job) {
    job.key.protocol == 6 && Rst(job.tcpFlags) ==> Syn(job.tcpFlags) || Fin(job.tcpFlags)
  }

  lemma TcpStays(conn: Connection, flags: byte)
    requires conn.state == New || conn.state == Established
    requires Rst(flags) ==> Syn(flags) || Fin(flags)
    ensures var r := TcpUpdated(conn, flags);
            && r.flowKey == conn.flowKey && (r.state == New || r.state == Established)
            && r.sni == conn.sni && r.httpHost == conn.httpHost && r.dnsQuery == conn.dnsQuery
  {
    hide Syn, Ack, Fin, Rst;
  }

  lemma MetStays(conn: Connection, job: Job, now: nat)
    requires (conn.state == New || conn.state == Established) && Nameless(conn) && NoReset(job)
    ensures var met := Met(conn, job, now);
            met.flowKey == conn.flowKey && Nameless(met) && (met.state == New || met.state == Established)
  {
    hide FromClient, Syn, Ack, Fin, Rst, TcpUpdated;
    if job.key.protocol == 6 { TcpStays(Updated(conn, job.size, FromClient(conn, job.key), now), job.tcpFlags); }
  }

  lemma FoundIsBefore(env: Env, max: nat, s: State, e: Event)
    requires Legal(s, e) && e.Packet?
    ensures var conn := Before(s, e.job, e.now);
            && Ipv4(Met(conn, e.job, e.now).flowKey)
            && OutcomeOf(env, max, s, e.job, e.now, e.order)
            == Decide(env, Met(conn, e.job, e.now), e.job, FromClient(conn, e.job.key))
  {
    CanonicalForgetsDirection(e.job.key);
    hide Met, Decide, FromClient, Evict;
  }

  /** A client's HTTP request, or anything it sends to port 80, is classified by the host it names. */
  lemma HttpIsDecided(env: Env, max: nat, s: State, e: Event)
    requires Legal(s, e) && e.Packet? && ReachesInspection(env, s, e)
    requires e.job.key.protocol == 6 && FromClient(Before(s, e.job, e.now), e.job.key)
    requires OnPort(e.job.key, 80) || env.isHttpRequest(e.job.payload)
    ensures var o := OutcomeOf(env, max, s, e.job, e.now, e.order);
            match env.httpHost(e.job.payload)
            case Some(host) => ClassifiedWith(env, o, env.appOf(host), [], host, [])
            case None => ClassifiedWith(env, o, Http, [], [], [])
  {
    Meets(env, max, s, e);
    SamePorts(e.job.key, 80);
    assert e.job.payload != [];
    hide Decide, Met, OutcomeOf, ClassifiedWith, Before, FlowKey.Canonical, OnPort, FromClient;
    HttpEntry(env, Met(Before(s, e.job, e.now), e.job, e.now), e.job);
  }

  /** A DNS query is classified by the name it asks for, in either direction. */
  lemma DnsIsDecided(env: Env, max: nat, s: State, e: Event)
    requires Legal(s, e) && e.Packet? && ReachesInspection(env, s, e)
    requires e.job.key.protocol == 17 && OnPort(e.job.key, 53) && env.dnsQuery(e.job.payload).Some?
    ensures ClassifiedWith(env, OutcomeOf(env, max, s, e.job, e.now, e.order), Dns, [], [],
                           env.dnsQuery(e.job.payload).value)
  {
    Meets(env, max, s, e);
    SamePorts(e.job.key, 53);
    assert e.job.payload != [];
    hide Decide, Met, OutcomeOf, ClassifiedWith, Before, FlowKey.Canonical, OnPort, FromClient;
    var conn := Before(s, e.job, e.now);
    DnsEntry(env, Met(conn, e.job, e.now), e.job, FromClient(conn, e.job.key));
  }

  /** A QUIC Initial packet is classified by the name in it, or as QUIC, in either direction. */
  lemma QuicIsDecided(env: Env, max: nat, s: State, e: Event)
    requires Legal(s, e) && e.Packet? && ReachesInspection(env, s, e)
    requires e.job.key.protocol == 17 && !OnPort(e.job.key, 53) && env.isQuicInitial(e.job.payload)
    ensures var o := OutcomeOf(env, max, s, e.job, e.now, e.order);
            match env.quicName(e.job.payload)
            case Some(sni) => ClassifiedWith(env, o, env.appOf(sni), sni, [], [])
            case None => ClassifiedWith(env, o, Quic, [], [], [])
  {
    Meets(env, max, s, e);
    SamePorts(e.job.key, 53);
    assert e.job.payload != [];
    hide Decide, Met, OutcomeOf, ClassifiedWith, Before, FlowKey.Canonical, OnPort, FromClient;
    var conn := Before(s, e.job, e.now);
    QuicEntry(env, Met(conn, e.job, e.now), e.job, FromClient(conn, e.job.key));
  }

  /** A packet that says nothing is forwarded and leaves its flow undecided, until the flow has had ten before it. */
  lemma SilenceIsDecided(env: Env, max: nat, s: State, e: Event)
    requires Legal(s, e) && e.Packet? && ReachesInspection(env, s, e)
    requires SaysNothing(env, e.job, FromClient(Before(s, e.job, e.now), e.job.key))
    ensures var o, conn := OutcomeOf(env, max, s, e.job, e.now, e.order), Before(s, e.job, e.now);
            if conn.packetsIn + conn.packetsOut >= 10 then ClassifiedWith(env, o, Unknown, [], [], [])
            else o.verdict == Forward && !o.classified && !o.blocked && Nameless(o.conn)
                 && (o.conn.state == New || o.conn.state == Established)
  {
    Meets(env, max, s, e);
    SamePorts(e.job.key, 53);
    assert e.job.payload != [];
    hide Decide, Met, OutcomeOf, ClassifiedWith, Before, FlowKey.Canonical, OnPort, FromClient, SaysNothing;
    var conn := Before(s, e.job, e.now);
    SilentEntry(env, Met(conn, e.job, e.now), e.job, FromClient(conn, e.job.key));
  }

  /** The reassembler a flow gets has room for 16384 bytes: a longer first segment makes it fail, no other does. */
  lemma FirstSegmentFits(env: Env, conn: Connection, job: Job)
    requires Ipv4(conn.flowKey) && !env.IpBlocked(conn.flowKey) && conn.flowKey.protocol == 6
    requires conn.state == New || conn.state == Established
    requires !OnPort(conn.flowKey, 80) && !env.isHttpRequest(job.payload)
    requires conn.client == Reassembly.Initial && job.payload != []
    ensures Decide(env, conn, job, true).conn.client.failed <==> |job.payload| > 16384
  {
    hide Reassembly.Deliver, Reassembly.Answer, Inspected, Env.Permits;
    FirstSegmentDelivered(job.seqNo, job.payload);
    TlsInspected(env, conn, job);
  }

  /** What inspection leaves of the reassembler when a client sends what is not HTTP. */
  lemma TlsInspected(env: Env, conn: Connection, job: Job)
    requires conn.flowKey.protocol == 6 && !OnPort(conn.flowKey, 80) && !env.isHttpRequest(job.payload)
    requires job.payload != []
    ensures var ar := Reassembly.Wrapping;
            var answer := Reassembly.Answer(ar, REASSEMBLY_LIMIT, conn.client, job.seqNo, job.payload);
            var after := Reassembly.Deliver(ar, REASSEMBLY_LIMIT, conn.client, job.seqNo, job.payload);
            Inspected(env, conn, job, true).client == if answer.Found? then Reassembly.Cleared(after) else after
  {
    hide Reassembly.Deliver, Reassembly.Answer, Reassembly.Cleared;
  }

  lemma FirstSegmentDelivered(seqNo: int, payload: bytes)
    requires payload != []
    ensures var ar := Reassembly.Wrapping;
            && (Reassembly.Deliver(ar, REASSEMBLY_LIMIT, Reassembly.Initial, seqNo, payload).failed
                <==> |payload| > 16384)
            && (Reassembly.Answer(ar, REASSEMBLY_LIMIT, Reassembly.Initial, seqNo, payload).Found? ==>
                  |payload| <= 16384)
  {
    assert Reassembly.Overlap(Reassembly.Wrapping, Reassembly.Anchored(Reassembly.Initial, seqNo), seqNo) == 0;
  }

  // ---------------------------------------------------------------- with the rules plugged in

  /** The fast path consults these domain rules. */
  ghost predicate Consults(env: Env, rules: Rules.Rules) {
    forall name :: env.domainBlocked(name) == Rules.DomainBlocked(rules, SegmentedHello.Chars(name))
  }

  lemma RulesBlockIff(env: Env, rules: Rules.Rules, app: AppType, name: bytes)
    requires Consults(env, rules)
    ensures RulesBlock(env, app, name) <==>
            app in env.blockedApps
            || (name != [] && Rules.UnderSomeRule(rules, Rules.Normalize(SegmentedHello.Chars(name))))
  {
    Rules.BlockedIffUnderSomeRule(rules, SegmentedHello.Chars(name));
    hide Rules.UnderSomeRule, Rules.DomainBlocked, Rules.Normalize;
  }

  /** A request that names a host is dropped exactly if a rule blocks its application or its labels. */
  lemma RulesDecideHttp(env: Env, rules: Rules.Rules, max: nat, s: State, e: Event)
    requires Legal(s, e) && e.Packet? && ReachesInspection(env, s, e) && Consults(env, rules)
    requires e.job.key.protocol == 6 && FromClient(Before(s, e.job, e.now), e.job.key)
    requires OnPort(e.job.key, 80) || env.isHttpRequest(e.job.payload)
    requires env.httpHost(e.job.payload).Some? && env.httpHost(e.job.payload).value != []
    ensures var host := env.httpHost(e.job.payload).value;
            Verdict(env, max, s, e) == Drop <==>
            env.appOf(host) in env.blockedApps
            || Rules.UnderSomeRule(rules, Rules.Normalize(SegmentedHello.Chars(host)))
  {
    var host := env.httpHost(e.job.payload).value;
    HttpIsDecided(env, max, s, e);
    RulesBlockIff(env, rules, env.appOf(host), host);
    hide OutcomeOf, RulesBlock, Rules.UnderSomeRule, Rules.Normalize, ReachesInspection, Before, OnPort, Consults;
  }

  /** A request for a host, with the extractor plugged in: dropped exactly if a rule blocks application or host. */
  lemma RulesDecideHttpRequest(env: Env, rules: Rules.Rules, max: nat, s: State, e: Event, request: bytes,
                               others: seq<bytes>, name: bytes, before: bytes, host: bytes, port: bytes, after: bytes,
                               rest: seq<bytes>)
    requires Legal(s, e) && e.Packet? && ReachesInspection(env, s, e) && Consults(env, rules)
    requires forall x :: env.isHttpRequest(x) == HttpHost.IsHttpRequest(x) && env.httpHost(x) == HttpHost.Extract(x)
    requires e.job.key.protocol == 6 && FromClient(Before(s, e.job, e.now), e.job.key)
    requires HttpHost.IsHttpRequest(request) && HttpHost.LF !in request
    requires forall line <- others :: HttpHost.LF !in line && !HttpHost.HostField(line)
    requires forall line <- rest :: HttpHost.LF !in line
    requires |name| == 4 && HttpHost.HostField(name + [HttpHost.COLON])
    requires HttpHost.AllBlank(before) && HttpHost.AllBlank(after)
    requires HttpHost.PlainHost(host) && HttpHost.Port(port)
    requires e.job.payload
          == Text.Join([request] + others + [HttpHost.HostLine(name, before, host, port, after)] + rest, HttpHost.LF)
    ensures Verdict(env, max, s, e) == Drop <==>
            env.appOf(host) in env.blockedApps
            || Rules.UnderSomeRule(rules, Rules.Normalize(SegmentedHello.Chars(host)))
  {
    HttpHost.ExtractUndoesRequest(request, others, name, before, host, port, after, rest);
    var payload := e.job.payload;
    assert env.httpHost(payload) == HttpHost.Extract(payload) == Some(host);
    assert env.isHttpRequest(payload) == HttpHost.IsHttpRequest(payload);
    assert HttpHost.IsHttpRequest(payload) && host != [];
    hide *;
    RulesDecideHttp(env, rules, max, s, e);
  }

  /** The name of a query, as the extractor gives it. */
  function QueryName(payload: bytes): Option<bytes> {
    match DnsQueries.ExtractQuery(payload)
    case None => None
    case Some(r) => Some(r.queryDomain)
  }

  /** A query built for a list of labels is dropped exactly if DNS is blocked or a rule blocks these labels. */
  lemma RulesDecideDnsQuery(env: Env, rules: Rules.Rules, max: nat, s: State, e: Event, labels: seq<bytes>,
                            transactionId: nat)
    requires Legal(s, e) && e.Packet? && ReachesInspection(env, s, e) && Consults(env, rules)
    requires forall payload :: env.dnsQuery(payload) == QueryName(payload)
    requires e.job.key.protocol == 17 && OnPort(e.job.key, 53)
    requires transactionId < 0x1_0000 && labels != [] && DnsQueries.Readable(labels)
    requires forall i :: 0 <= i < |labels| ==> DnsQueries.DOT !in labels[i]
    requires e.job.payload == DnsQueries.Query(labels, transactionId)
    ensures var name := Text.Join(labels, DnsQueries.DOT);
            Verdict(env, max, s, e) == Drop <==>
            Dns in env.blockedApps || Rules.UnderSomeRule(rules, Rules.Normalize(SegmentedHello.Chars(name)))
  {
    var name := Text.Join(labels, DnsQueries.DOT);
    DnsQueries.ExtractUndoesQuery(labels, transactionId);
    assert env.dnsQuery(e.job.payload) == QueryName(e.job.payload) == Some(name);
    DnsQueries.JoinNonEmpty(labels);
    DnsIsDecided(env, max, s, e);
    RulesBlockIff(env, rules, Dns, name);
    hide OutcomeOf, RulesBlock, Rules.UnderSomeRule, Rules.Normalize, ReachesInspection, Before, OnPort, Consults;
    hide QueryName, DnsQueries.Query, DnsQueries.Readable;
  }
}
