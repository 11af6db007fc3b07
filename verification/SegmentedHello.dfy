/**
 The reassembler inside the fast path. A ClientHello cut over any packets of a flow, between any packets of the
 server, is recognised on the packet that completes it, exactly if the fast path has not given the flow up by then;
 that packet is dropped exactly if the rules block the host or its application.
 */
module SegmentedHello {
  import opened Bytes
  import opened Flows
  import opened AppTypes
  import opened FlowTable
  import opened FastPath
  import opened Reassembly
  import opened ReassemblyMemory
  import opened ReassemblyPrefix
  import opened ReassemblyWraparound
  import opened SniDelivery
  import opened ClientHello
  import FlowLedger
  import Rules

  /** A packet in either direction: where its payload lies in its sender's stream, and when it arrives. */
  datatype Sent = Sent(byClient: bool, offset: int, payload: bytes, flags: byte, size: nat, now: nat)

  /** One flow: the key of its client's packets, the initial sequence numbers, and when the entry is created. */
  datatype Flow = Flow(key: FlowKey, clientIsn: int, serverIsn: int, start: nat)
  {
    function Packet(p: Sent): Job {
      if p.byClient then Job(key, p.size, p.flags, Wire(clientIsn, p.offset), p.payload)
      else Job(key.Reverse(), p.size, p.flags, Wire(serverIsn, p.offset), p.payload)
    }

    /** The flow's entry after the packets; a packet of the client creates it. */
    function Entry(env: Env, sent: seq<Sent>): Connection
      requires Ipv4(key)
      ensures Entry(env, sent).flowKey == key.Canonical()
      decreases |sent|, 1
    {
      if sent == [] then Created(key, start) else OnLast(env, sent).conn
    }

    /** What happens on the last of the packets. */
    function OnLast(env: Env, sent: seq<Sent>): Outcome
      requires Ipv4(key) && sent != []
      ensures OnLast(env, sent).conn.flowKey == key.Canonical()
      decreases |sent|, 0
    {
      var before := Entry(env, sent[..|sent| - 1]);
      var last := sent[|sent| - 1];
      var job := Packet(last);
      var met := Met(before, job, last.now);
      DecideKeepsKey(env, met, job, FromClient(before, job.key));
      Decide(env, met, job, FromClient(before, job.key))
    }

    /** The endpoints of a flow differ, so that its two directions can be told apart. */
    predicate Directed() {
      key.Reverse() != key
    }
  }

  lemma DecideKeepsKey(env: Env, conn: Connection, job: Job, fromClient: bool)
    requires Ipv4(conn.flowKey)
    ensures Decide(env, conn, job, fromClient).conn.flowKey == conn.flowKey
  {
    if job.payload != [] { ExtractedClassifies(env, conn, job, fromClient); }
    hide Extracted;
  }

  /** The deliveries the client's packets amount to for the reassembler. */
  function CallsOf(sent: seq<Sent>): seq<Call> {
    if sent == [] then [] else CallsOf(sent[..|sent| - 1]) + CallOf(sent[|sent| - 1])
  }

  function CallOf(p: Sent): seq<Call> {
    if p.byClient && p.payload != [] then [Arrive(p.offset, p.payload)] else []
  }

  /** No reset: one that is neither a SYN nor a FIN closes the flow. */
  predicate Quiet(flags: byte) {
    Rst(flags) ==> Syn(flags) || Fin(flags)
  }

  /** After more than this many packets the fast path gives up on a packet with payload that it cannot classify. */
  const PATIENCE: nat := 10

  /** No packet met inspection in vain after the fast path had lost patience. */
  predicate InTime(sent: seq<Sent>) {
    forall i :: PATIENCE <= i < |sent| ==> sent[i].payload == []
  }

  /** A SYN|ACK would open a flow that was given up again. */
  predicate NotReopened(sent: seq<Sent>) {
    forall i :: 0 <= i < |sent| && Syn(sent[i].flags) && Ack(sent[i].flags) ==> InTime(sent[..i])
  }

  /**
   A TLS client of a host and its server: no HTTP, no blocked address, no reset; what the client sends is its
   stream, cut in any way, within the reassembly limit.
   */
  ghost predicate TlsClient(env: Env, f: Flow, host: bytes, random: bytes, stream: bytes, sent: seq<Sent>) {
    && Ipv4(f.key) && f.Directed() && f.key.protocol == 6 && f.key.srcPort != 80 && f.key.dstPort != 80
    && !env.IpBlocked(f.key)
    && 0 < |host| <= MAX_HOST && |random| == 32 && Record(host, random) <= stream
    && (forall p <- sent :: Quiet(p.flags) && (p.byClient ==> !env.isHttpRequest(p.payload)))
    && var calls := CallsOf(sent);
       && SlicesOf(stream, calls) && (calls != [] ==> StartsStream(calls))
       && TotalLength(calls) <= REASSEMBLY_LIMIT && AllNear(REASSEMBLY_LIMIT, calls)
  }

  /** The client's packets have carried the whole record. */
  ghost predicate HelloSent(host: bytes, random: bytes, sent: seq<Sent>)
    requires |host| <= MAX_HOST && |random| == 32
  {
    Complete(CallsOf(sent), |Record(host, random)|)
  }

  function Delivered(f: Flow, sent: seq<Sent>): Reassembly.State {
    Run(Wrapping, REASSEMBLY_LIMIT, WireCalls(f.clientIsn, CallsOf(sent)))
  }

  ghost predicate OfFlow(f: Flow, conn: Connection) {
    conn.flowKey == f.key.Canonical() && conn.originalIsCanonical == (f.key == f.key.Canonical())
  }

  predicate Nameless(conn: Connection) {
    conn.sni == [] && conn.httpHost == [] && conn.dnsQuery == []
  }

  /** The flow is still undecided, and its reassembler holds what the client's packets delivered. */
  ghost predicate Waiting(f: Flow, conn: Connection, sent: seq<Sent>) {
    && OfFlow(f, conn) && Nameless(conn) && (conn.state == New || conn.state == Established)
    && conn.packetsIn + conn.packetsOut == |sent| && conn.client == Delivered(f, sent)
  }

  /** The flow was given up: it counts as an unknown application, which the rules may block. */
  ghost predicate GivenUp(env: Env, f: Flow, conn: Connection) {
    && OfFlow(f, conn) && Nameless(conn) && conn.app == Unknown
    && conn.state == if Unknown in env.blockedApps then Blocked else Classified
  }

  function UnknownVerdict(env: Env): PacketAction {
    if Unknown in env.blockedApps then Drop else Forward
  }

  // ---------------------------------------------------------------- one packet

  lemma FlowPorts(key: FlowKey)
    ensures var c := key.Canonical();
            && c.protocol == key.protocol
            && ((c.srcPort == key.srcPort && c.dstPort == key.dstPort && c.src == key.src && c.dst == key.dst)
                || (c.srcPort == key.dstPort && c.dstPort == key.srcPort && c.src == key.dst && c.dst == key.src))
  {
  }

  /** The entry's direction test tells the client's packets from the server's. */
  lemma DirectionIsKnown(f: Flow, conn: Connection, p: Sent)
    requires OfFlow(f, conn) && f.Directed()
    ensures FromClient(conn, f.Packet(p).key) == p.byClient
    ensures f.Packet(p).key.Canonical() == f.key.Canonical() && f.Packet(p).key.protocol == f.key.protocol
  {
    CanonicalForgetsDirection(f.key);
    FlowLedger.FromClientIffCreatorsKey(f.key.Canonical(), conn, f.key, f.Packet(p).key);
  }

  /**
   Counting a quiet packet and following its TCP flags changes no more than the count and, by a SYN|ACK, the state.
   */
  lemma MeetsQuietly(f: Flow, conn: Connection, p: Sent)
    requires OfFlow(f, conn) && f.key.protocol == 6 && Quiet(p.flags)
    ensures var met := Met(conn, f.Packet(p), p.now);
            && OfFlow(f, met) && met.sni == conn.sni && met.httpHost == conn.httpHost && met.dnsQuery == conn.dnsQuery
            && met.app == conn.app && met.client == conn.client
            && met.packetsIn + met.packetsOut == conn.packetsIn + conn.packetsOut + 1
            && (met.state == conn.state || (met.state == Established && Syn(p.flags) && Ack(p.flags)))
  {
    hide Syn, Ack, Fin, Rst, FlowKey.Canonical, FromClient;
    var job := f.Packet(p);
    assert job.tcpFlags == p.flags && job.key.protocol == 6;
    var fromClient := FromClient(conn, job.key);
    var counted := Updated(conn, job.size, fromClient, p.now);
    assert counted.packetsIn + counted.packetsOut == conn.packetsIn + conn.packetsOut + 1;
    hide Updated, Flow.Packet, Wire;
  }

  /** An entry that reaches inspection, of a flow that is not HTTP. */
  predicate Undecided(env: Env, conn: Connection, job: Job, fromClient: bool) {
    && Ipv4(conn.flowKey) && conn.flowKey.protocol == 6 && conn.flowKey.srcPort != 80 && conn.flowKey.dstPort != 80
    && (fromClient ==> !env.isHttpRequest(job.payload))
    && (conn.state == New || conn.state == Established) && !env.IpBlocked(conn.flowKey) && Nameless(conn)
  }

  /** What the reassembler answers to a packet, and its state after it; the server's packets do not reach it. */
  function AnswerTo(conn: Connection, job: Job, fromClient: bool): ScanOutcome {
    if fromClient then Answer(Wrapping, REASSEMBLY_LIMIT, conn.client, job.seqNo, job.payload) else NotFound
  }

  function ClientAfter(conn: Connection, job: Job, fromClient: bool): Reassembly.State {
    if fromClient then Deliver(Wrapping, REASSEMBLY_LIMIT, conn.client, job.seqNo, job.payload) else conn.client
  }

  /** The reassembler's answer decides the classification; without one, patience does. */
  lemma InspectsSegment(env: Env, conn: Connection, job: Job, fromClient: bool)
    requires Undecided(env, conn, job, fromClient) && job.payload != []
    ensures var answer, after := AnswerTo(conn, job, fromClient), ClientAfter(conn, job, fromClient);
            Inspected(env, conn, job, fromClient) ==
            if answer.Found? then
              ClassifiedAs(conn.(client := Cleared(after)), env.appOf(answer.name), answer.name, [], [])
            else if conn.packetsIn + conn.packetsOut > PATIENCE then
              ClassifiedAs(conn.(client := after), Unknown, [], [], [])
            else conn.(client := after)
  {
    hide Answer, Deliver, ClassifiedAs;
  }

  lemma EmptySegment(s: Reassembly.State, seqNo: int)
    ensures Answer(Wrapping, REASSEMBLY_LIMIT, s, seqNo, []) == NotFound
            && Deliver(Wrapping, REASSEMBLY_LIMIT, s, seqNo, []) == s
  {
    hide Scan, Append, Store;
  }

  /** The verdict that follows from what inspection makes of the entry. */
  lemma DecidesAs(env: Env, conn: Connection, job: Job, fromClient: bool, c: Connection)
    requires Undecided(env, conn, job, fromClient) && Inspected(env, conn, job, fromClient) == c
    ensures Decide(env, conn, job, fromClient)
         == if c.state == Classified && !env.Permits(c) then Outcome(BlockedConnection(c), Drop, true, true)
            else Outcome(c, Forward, c.state == Classified, false)
  {
    hide Inspected;
  }

  /** The packet that completes the hello: blocked and dropped if a rule says so, else classified and forwarded. */
  predicate Recognised(env: Env, o: Outcome, host: bytes) {
    && o.conn.sni == host && o.conn.app == env.appOf(host) && o.classified
    && if env.appOf(host) in env.blockedApps || env.domainBlocked(host) then
         o.verdict == Drop && o.conn.state == Blocked
       else
         o.verdict == Forward && o.conn.state == Classified
  }

  /** What becomes of an entry that is classified as unknown. */
  lemma DecidesUnknown(env: Env, conn: Connection, job: Job, fromClient: bool, c: Connection)
    requires Undecided(env, conn, job, fromClient)
    requires Nameless(c) && c.app == Unknown && c.state == Classified && Inspected(env, conn, job, fromClient) == c
    ensures var o := Decide(env, conn, job, fromClient);
            && o.verdict == UnknownVerdict(env)
            && o.conn == if Unknown in env.blockedApps then BlockedConnection(c) else c
  {
    DecidesAs(env, conn, job, fromClient, c);
    hide Decide, Inspected;
  }

  /** The verdict on a packet of an undecided flow, given what the reassembler answers. */
  lemma DecidesSegment(env: Env, conn: Connection, job: Job, fromClient: bool)
    requires Undecided(env, conn, job, fromClient)
    ensures var o := Decide(env, conn, job, fromClient);
            var answer, after := AnswerTo(conn, job, fromClient), ClientAfter(conn, job, fromClient);
            if answer.Found? then answer.name != [] ==> Recognised(env, o, answer.name)
            else if job.payload != [] && conn.packetsIn + conn.packetsOut > PATIENCE then
              && o.verdict == UnknownVerdict(env)
              && o.conn.flowKey == conn.flowKey && o.conn.originalIsCanonical == conn.originalIsCanonical
              && Nameless(o.conn) && o.conn.app == Unknown
              && o.conn.state == if Unknown in env.blockedApps then Blocked else Classified
            else o == Outcome(conn.(client := after), Forward, false, false)
  {
    var answer, after := AnswerTo(conn, job, fromClient), ClientAfter(conn, job, fromClient);
    if job.payload == [] {
      EmptySegment(conn.client, job.seqNo);
      assert Inspected(env, conn, job, fromClient) == conn;
      assert answer == NotFound && after == conn.client;
      hide *;
      DecidesAs(env, conn, job, fromClient, conn);
      assert conn.(client := conn.client) == conn;
    } else {
      InspectsSegment(env, conn, job, fromClient);
      hide AnswerTo, ClientAfter, Inspected;
      if answer.Found? {
        var c := ClassifiedAs(conn.(client := Cleared(after)), env.appOf(answer.name), answer.name, [], []);
        DecidesAs(env, conn, job, fromClient, c);
        hide Decide;
      } else if conn.packetsIn + conn.packetsOut > PATIENCE {
        var c := ClassifiedAs(conn.(client := after), Unknown, [], [], []);
        hide Decide;
        DecidesUnknown(env, conn, job, fromClient, c);
      } else {
        hide *;
        DecidesAs(env, conn, job, fromClient, conn.(client := after));
      }
    }
  }

  // ---------------------------------------------------------------- the client's stream

  lemma {:induction false} CallsOfStep(all: seq<Sent>, k: nat)
    requires k < |all|
    ensures CallsOf(all[..k]) <= CallsOf(all[..k + 1]) <= CallsOf(all)
    ensures CallsOf(all[..k + 1]) == CallsOf(all[..k]) + CallOf(all[k])
    decreases |all|
  {
    assert all[..k + 1][..k] == all[..k];
    if k + 1 == |all| {
      assert all[..k + 1] == all;
    } else {
      var shorter := all[..|all| - 1];
      CallsOfStep(shorter, k);
      assert shorter[..k + 1] == all[..k + 1];
    }
  }

  lemma WireStep(isn: int, calls: seq<Call>, j: nat)
    requires j < |calls| && calls[j].Arrive?
    ensures Run(Wrapping, REASSEMBLY_LIMIT, WireCalls(isn, calls[..j + 1]))
         == Deliver(Wrapping, REASSEMBLY_LIMIT, Run(Wrapping, REASSEMBLY_LIMIT, WireCalls(isn, calls[..j])),
                    Wire(isn, calls[j].seqNo), calls[j].payload)
  {
    var w := WireCalls(isn, calls[..j + 1]);
    assert w[..|w| - 1] == WireCalls(isn, calls[..j]);
    hide Deliver;
  }

  lemma SniIsDeliveredAt(env: Env, f: Flow, host: bytes, random: bytes, stream: bytes, sent: seq<Sent>, j: nat)
    requires TlsClient(env, f, host, random, stream, sent) && j < |CallsOf(sent)|
    ensures var calls, size := CallsOf(sent), |Record(host, random)|;
            var s := Run(Wrapping, REASSEMBLY_LIMIT, WireCalls(f.clientIsn, calls[..j]));
            var answer := Answer(Wrapping, REASSEMBLY_LIMIT, s, Wire(f.clientIsn, calls[j].seqNo), calls[j].payload);
            && (!Complete(calls[..j + 1], size) ==> answer == NotFound)
            && (Complete(calls[..j + 1], size) && !Complete(calls[..j], size) ==> answer == Found(host))
  {
    SniIsDelivered(stream, host, random, f.clientIsn, REASSEMBLY_LIMIT, CallsOf(sent), j);
  }

  /** What the reassembler makes of the k-th packet, on a flow that waits for the hello. */
  lemma SegmentDelivered(env: Env, f: Flow, host: bytes, random: bytes, stream: bytes, sent: seq<Sent>, k: nat,
                         conn: Connection)
    requires TlsClient(env, f, host, random, stream, sent) && k < |sent| && !HelloSent(host, random, sent[..k])
    requires conn.client == Delivered(f, sent[..k])
    ensures ClientAfter(conn, f.Packet(sent[k]), sent[k].byClient) == Delivered(f, sent[..k + 1])
    ensures AnswerTo(conn, f.Packet(sent[k]), sent[k].byClient)
         == if HelloSent(host, random, sent[..k + 1]) then Found(host) else NotFound
  {
    CallsOfStep(sent, k);
    if CallOf(sent[k]) == [] {
      assert CallsOf(sent[..k + 1]) == CallsOf(sent[..k]);
      hide *;
      NotDelivered(conn, f.Packet(sent[k]), sent[k].byClient);
    } else {
      DeliversNext(env, f, host, random, stream, sent, k);
      hide *;
    }
  }

  lemma NotDelivered(conn: Connection, job: Job, fromClient: bool)
    requires fromClient ==> job.payload == []
    ensures ClientAfter(conn, job, fromClient) == conn.client && AnswerTo(conn, job, fromClient) == NotFound
  {
    EmptySegment(conn.client, job.seqNo);
    hide Answer, Deliver;
  }

  /** The client's next segment, as the reassembler sees it. */
  lemma DeliversNext(env: Env, f: Flow, host: bytes, random: bytes, stream: bytes, sent: seq<Sent>, k: nat)
    requires TlsClient(env, f, host, random, stream, sent) && k < |sent| && !HelloSent(host, random, sent[..k])
    requires sent[k].byClient && sent[k].payload != []
    ensures var before, seqNo := Delivered(f, sent[..k]), Wire(f.clientIsn, sent[k].offset);
            && Deliver(Wrapping, REASSEMBLY_LIMIT, before, seqNo, sent[k].payload) == Delivered(f, sent[..k + 1])
            && Answer(Wrapping, REASSEMBLY_LIMIT, before, seqNo, sent[k].payload)
               == if HelloSent(host, random, sent[..k + 1]) then Found(host) else NotFound
  {
    var calls, j := CallsOf(sent), |CallsOf(sent[..k])|;
    NextCall(sent, k);
    hide *;
    SniIsDeliveredAt(env, f, host, random, stream, sent, j);
    WireStep(f.clientIsn, calls, j);
    SentAsCalls(f, host, random, sent, k);
    SentAsCalls(f, host, random, sent, k + 1);
  }

  lemma NextCall(sent: seq<Sent>, k: nat)
    requires k < |sent| && sent[k].byClient && sent[k].payload != []
    ensures var calls, j := CallsOf(sent), |CallsOf(sent[..k])|;
            && j < |calls| && calls[..j] == CallsOf(sent[..k]) && calls[..j + 1] == CallsOf(sent[..k + 1])
            && calls[j] == Arrive(sent[k].offset, sent[k].payload)
  {
    CallsOfStep(sent, k);
    hide CallsOf;
  }

  lemma SentAsCalls(f: Flow, host: bytes, random: bytes, sent: seq<Sent>, k: nat)
    requires |host| <= MAX_HOST && |random| == 32 && k <= |sent|
    ensures HelloSent(host, random, sent[..k]) <==> Complete(CallsOf(sent[..k]), |Record(host, random)|)
    ensures Delivered(f, sent[..k]) == Run(Wrapping, REASSEMBLY_LIMIT, WireCalls(f.clientIsn, CallsOf(sent[..k])))
  {
    hide Run, WireCalls, CallsOf, Complete, Record;
  }

  lemma CompleteGrows(a: seq<Call>, b: seq<Call>, size: nat)
    requires a <= b && Complete(a, size)
    ensures Complete(b, size)
  {
    forall p | 0 <= p < size
      ensures CarriedBy(b, p)
    {
      assert CarriedBy(a, p);
      var c :| c in a && Covers(c, p);
      assert c in b;
    }
  }

  lemma HelloSentStays(host: bytes, random: bytes, sent: seq<Sent>, k: nat)
    requires |host| <= MAX_HOST && |random| == 32 && k < |sent| && HelloSent(host, random, sent[..k])
    ensures HelloSent(host, random, sent[..k + 1])
  {
    CallsOfStep(sent, k);
    CompleteGrows(CallsOf(sent[..k]), CallsOf(sent[..k + 1]), |Record(host, random)|);
  }

  // ---------------------------------------------------------------- the flow

  lemma LastPacket(env: Env, f: Flow, sent: seq<Sent>, k: nat)
    requires Ipv4(f.key) && k < |sent|
    ensures var before := f.Entry(env, sent[..k]);
            var job := f.Packet(sent[k]);
            f.OnLast(env, sent[..k + 1]) == Decide(env, Met(before, job, sent[k].now), job, FromClient(before, job.key))
    ensures f.Entry(env, sent[..k + 1]) == f.OnLast(env, sent[..k + 1]).conn
  {
    assert sent[..k + 1][..k] == sent[..k];
  }

  /** What a packet finds when it reaches inspection, and what a mere change of the reassembler leaves. */
  lemma PacketMeets(env: Env, f: Flow, host: bytes, random: bytes, stream: bytes, sent: seq<Sent>, k: nat)
    requires TlsClient(env, f, host, random, stream, sent) && k < |sent|
    requires Waiting(f, f.Entry(env, sent[..k]), sent[..k])
    ensures var before := f.Entry(env, sent[..k]);
            var job := f.Packet(sent[k]);
            var met := Met(before, job, sent[k].now);
            && FromClient(before, job.key) == sent[k].byClient && Undecided(env, met, job, sent[k].byClient)
            && met.client == before.client && met.packetsIn + met.packetsOut == k + 1 && OfFlow(f, met)
            && Waiting(f, met.(client := Delivered(f, sent[..k + 1])), sent[..k + 1])
  {
    var before := f.Entry(env, sent[..k]);
    assert Quiet(sent[k].flags) && (sent[k].byClient ==> !env.isHttpRequest(sent[k].payload));
    DirectionIsKnown(f, before, sent[k]);
    MeetsQuietly(f, before, sent[k]);
    FlowPorts(f.key);
    hide Met, FromClient, FlowKey.Canonical, CallsOf, SlicesOf, StartsStream, AllNear, TotalLength, Record, Delivered,
      Quiet;
    hide Flow.Entry;
  }

  /** The verdict on a packet that meets a waiting flow. */
  lemma OnePacket(env: Env, f: Flow, host: bytes, random: bytes, stream: bytes, sent: seq<Sent>, k: nat)
    requires TlsClient(env, f, host, random, stream, sent) && k < |sent| && !HelloSent(host, random, sent[..k])
    requires Waiting(f, f.Entry(env, sent[..k]), sent[..k])
    ensures var o := f.OnLast(env, sent[..k + 1]);
            if HelloSent(host, random, sent[..k + 1]) then Recognised(env, o, host)
            else if k >= PATIENCE && sent[k].payload != [] then
              o.verdict == UnknownVerdict(env) && GivenUp(env, f, o.conn)
            else o.verdict == Forward && Waiting(f, o.conn, sent[..k + 1])
  {
    assert 0 < |host| <= MAX_HOST && |random| == 32;
    PacketMeets(env, f, host, random, stream, sent, k);
    LastPacket(env, f, sent, k);
    var job := f.Packet(sent[k]);
    var met := Met(f.Entry(env, sent[..k]), job, sent[k].now);
    assert job.payload == sent[k].payload;
    SegmentDelivered(env, f, host, random, stream, sent, k, met);
    DecidesSegment(env, met, job, sent[k].byClient);
    hide TlsClient, Decide, Met, FromClient, CallsOf, HelloSent, Record, Recognised, Undecided, Delivered;
    hide ClientAfter, AnswerTo, Flow.OnLast, Flow.Entry, UnknownVerdict;
  }

  lemma StartsWaiting(env: Env, f: Flow)
    requires Ipv4(f.key)
    ensures Waiting(f, f.Entry(env, []), [])
  {
    assert WireCalls(f.clientIsn, CallsOf([])) == [];
  }

  lemma InTimeStep(sent: seq<Sent>, k: nat)
    requires k < |sent|
    ensures InTime(sent[..k + 1]) <==> InTime(sent[..k]) && (k >= PATIENCE ==> sent[k].payload == [])
  {
    assert sent[..k + 1] == sent[..k] + [sent[k]];
    assert sent[..k + 1][k] == sent[k];
    assert forall i :: 0 <= i < k ==> sent[..k + 1][i] == sent[..k][i];
  }

  lemma ClientFacts(env: Env, f: Flow, host: bytes, random: bytes, stream: bytes, sent: seq<Sent>)
    requires TlsClient(env, f, host, random, stream, sent)
    ensures 0 < |host| <= MAX_HOST && |random| == 32 && Ipv4(f.key)
  {
  }

  lemma WaitsOn(env: Env, f: Flow, host: bytes, random: bytes, stream: bytes, sent: seq<Sent>, k: nat)
    requires TlsClient(env, f, host, random, stream, sent) && k < |sent|
    requires !HelloSent(host, random, sent[..k + 1]) && !HelloSent(host, random, sent[..k]) && InTime(sent[..k + 1])
    requires Waiting(f, f.Entry(env, sent[..k]), sent[..k])
    ensures Waiting(f, f.Entry(env, sent[..k + 1]), sent[..k + 1])
  {
    ClientFacts(env, f, host, random, stream, sent);
    hide *;
    InTimeStep(sent, k);
    OnePacket(env, f, host, random, stream, sent, k);
    LastPacket(env, f, sent, k);
  }

  /** As long as the hello is incomplete and nobody lost patience, the flow waits. */
  lemma {:induction false} StillWaiting(env: Env, f: Flow, host: bytes, random: bytes, stream: bytes, sent: seq<Sent>,
                                        k: nat)
    requires TlsClient(env, f, host, random, stream, sent) && k <= |sent|
    requires !HelloSent(host, random, sent[..k]) && InTime(sent[..k])
    ensures Waiting(f, f.Entry(env, sent[..k]), sent[..k])
    decreases k
  {
    hide *;
    ClientFacts(env, f, host, random, stream, sent);
    if k == 0 {
      StartsWaiting(env, f);
      assert sent[..k] == [];
    } else {
      var j := k - 1;
      if HelloSent(host, random, sent[..j]) { HelloSentStays(host, random, sent, j); }
      InTimeStep(sent, j);
      StillWaiting(env, f, host, random, stream, sent, j);
      WaitsOn(env, f, host, random, stream, sent, j);
    }
  }

  /** A flow that was given up stays given up, whatever its quiet packets carry, until a SYN|ACK. */
  lemma GivenUpStays(env: Env, f: Flow, conn: Connection, p: Sent)
    requires GivenUp(env, f, conn) && Ipv4(f.key) && f.Directed() && f.key.protocol == 6 && !env.IpBlocked(f.key)
    requires Quiet(p.flags) && !(Syn(p.flags) && Ack(p.flags))
    ensures var job := f.Packet(p);
            var o := Decide(env, Met(conn, job, p.now), job, FromClient(conn, job.key));
            o.verdict == UnknownVerdict(env) && GivenUp(env, f, o.conn)
  {
    MeetsQuietly(f, conn, p);
    FlowPorts(f.key);
    hide Met, FromClient, FlowKey.Canonical, Inspected, Syn, Ack;
  }

  lemma PacketFacts(env: Env, f: Flow, host: bytes, random: bytes, stream: bytes, sent: seq<Sent>, k: nat)
    requires TlsClient(env, f, host, random, stream, sent) && NotReopened(sent) && k < |sent|
    ensures 0 < |host| <= MAX_HOST && |random| == 32
    ensures Ipv4(f.key) && f.Directed() && f.key.protocol == 6 && !env.IpBlocked(f.key)
    ensures Quiet(sent[k].flags) && (Syn(sent[k].flags) && Ack(sent[k].flags) ==> InTime(sent[..k]))
    ensures InTime([])
  {
  }

  /** The first packet that meets inspection in vain after the tenth gives the flow up. */
  lemma GivesUp(env: Env, f: Flow, host: bytes, random: bytes, stream: bytes, sent: seq<Sent>, k: nat)
    requires TlsClient(env, f, host, random, stream, sent) && k < |sent|
    requires InTime(sent[..k]) && !InTime(sent[..k + 1]) && !HelloSent(host, random, sent[..k + 1])
    ensures f.OnLast(env, sent[..k + 1]).verdict == UnknownVerdict(env)
            && GivenUp(env, f, f.OnLast(env, sent[..k + 1]).conn)
  {
    assert |host| <= MAX_HOST && |random| == 32 && Ipv4(f.key);
    hide TlsClient, HelloSent, Recognised, GivenUp, Flow.Entry, Flow.OnLast, InTime, Waiting, UnknownVerdict;
    InTimeStep(sent, k);
    if HelloSent(host, random, sent[..k]) { HelloSentStays(host, random, sent, k); }
    StillWaiting(env, f, host, random, stream, sent, k);
    OnePacket(env, f, host, random, stream, sent, k);
  }

  /** Every later packet meets a flow that was given up. */
  lemma StaysUp(env: Env, f: Flow, host: bytes, random: bytes, stream: bytes, sent: seq<Sent>, k: nat)
    requires TlsClient(env, f, host, random, stream, sent) && NotReopened(sent) && k < |sent|
    requires !InTime(sent[..k]) && GivenUp(env, f, f.Entry(env, sent[..k]))
    ensures f.OnLast(env, sent[..k + 1]).verdict == UnknownVerdict(env)
            && GivenUp(env, f, f.OnLast(env, sent[..k + 1]).conn)
  {
    PacketFacts(env, f, host, random, stream, sent, k);
    hide *;
    LastPacket(env, f, sent, k);
    GivenUpStays(env, f, f.Entry(env, sent[..k]), sent[k]);
  }

  lemma PatienceLost(sent: seq<Sent>, k: nat)
    requires k <= |sent| && !InTime(sent[..k])
    ensures k > PATIENCE
  {
  }

  lemma GivenUpNext(env: Env, f: Flow, host: bytes, random: bytes, stream: bytes, sent: seq<Sent>, k: nat)
    requires TlsClient(env, f, host, random, stream, sent) && NotReopened(sent) && k < |sent|
    requires !HelloSent(host, random, sent[..k + 1]) && !InTime(sent[..k + 1])
    requires !InTime(sent[..k]) ==> GivenUp(env, f, f.Entry(env, sent[..k]))
    ensures GivenUp(env, f, f.Entry(env, sent[..k + 1]))
  {
    PacketFacts(env, f, host, random, stream, sent, k);
    hide *;
    LastPacket(env, f, sent, k);
    if InTime(sent[..k]) {
      GivesUp(env, f, host, random, stream, sent, k);
    } else {
      StaysUp(env, f, host, random, stream, sent, k);
    }
  }

  lemma {:induction false} GivenUpBy(env: Env, f: Flow, host: bytes, random: bytes, stream: bytes, sent: seq<Sent>,
                                     k: nat)
    requires TlsClient(env, f, host, random, stream, sent) && NotReopened(sent) && k <= |sent|
    requires |host| <= MAX_HOST && |random| == 32 && Ipv4(f.key)
    requires !HelloSent(host, random, sent[..k]) && !InTime(sent[..k])
    ensures GivenUp(env, f, f.Entry(env, sent[..k]))
    decreases k
  {
    hide *;
    PatienceLost(sent, k);
    var j := k - 1;
    if !InTime(sent[..j]) {
      if HelloSent(host, random, sent[..j]) { HelloSentStays(host, random, sent, j); }
      GivenUpBy(env, f, host, random, stream, sent, j);
    }
    GivenUpNext(env, f, host, random, stream, sent, j);
  }

  /**
   As long as no packet beyond the tenth has met inspection in vain, every packet before the hello is complete is
   forwarded, or gives the flow up, and the packet that completes the hello names the host.
   */
  lemma HelloIsCaught(env: Env, f: Flow, host: bytes, random: bytes, stream: bytes, sent: seq<Sent>, k: nat)
    requires TlsClient(env, f, host, random, stream, sent) && k < |sent|
    requires !HelloSent(host, random, sent[..k]) && InTime(sent[..k])
    ensures var o := f.OnLast(env, sent[..k + 1]);
            if HelloSent(host, random, sent[..k + 1]) then Recognised(env, o, host)
            else if InTime(sent[..k + 1]) then o.verdict == Forward && o.conn.state in {New, Established}
            else o.verdict == UnknownVerdict(env) && GivenUp(env, f, o.conn)
  {
    assert |host| <= MAX_HOST && |random| == 32 && Ipv4(f.key);
    hide TlsClient, HelloSent, Recognised, GivenUp, Flow.Entry, Flow.OnLast, InTime, OfFlow, Delivered, UnknownVerdict;
    InTimeStep(sent, k);
    StillWaiting(env, f, host, random, stream, sent, k);
    OnePacket(env, f, host, random, stream, sent, k);
  }

  /**
   The packet that completes the hello is recognised exactly if no earlier packet with payload came after the
   tenth; otherwise the flow counts as unknown and the hello escapes.
   */
  lemma HelloIsCaughtIffInTime(env: Env, f: Flow, host: bytes, random: bytes, stream: bytes, sent: seq<Sent>, k: nat)
    requires TlsClient(env, f, host, random, stream, sent) && NotReopened(sent) && k < |sent|
    requires !HelloSent(host, random, sent[..k]) && HelloSent(host, random, sent[..k + 1])
    ensures var o := f.OnLast(env, sent[..k + 1]);
            && (Recognised(env, o, host) <==> InTime(sent[..k]))
            && (!InTime(sent[..k]) ==> o.verdict == UnknownVerdict(env) && GivenUp(env, f, o.conn))
  {
    assert 0 < |host| <= MAX_HOST && |random| == 32 && Ipv4(f.key);
    hide TlsClient, HelloSent, Flow.Entry, Flow.OnLast, InTime, OfFlow, UnknownVerdict, Env.Permits;
    InTimeStep(sent, k);
    if InTime(sent[..k]) {
      HelloIsCaught(env, f, host, random, stream, sent, k);
    } else {
      GivenUpBy(env, f, host, random, stream, sent, k);
      StaysUp(env, f, host, random, stream, sent, k);
    }
  }

  /** The table holds the flow's entry after k packets, or no entry if the client's first packet is still to come. */
  predicate Filed(env: Env, f: Flow, s: FastPath.State, sent: seq<Sent>, k: nat)
    requires Ipv4(f.key) && k < |sent|
  {
    var c := f.key.Canonical();
    if c in s.tracker.connections then s.tracker.connections[c] == f.Entry(env, sent[..k])
    else k == 0 && sent[0].byClient && sent[0].now == f.start
  }

  /** processPacket on the flow's next packet does to table and verdict what Entry and OnLast say. */
  lemma TableFollowsEntry(env: Env, f: Flow, max: nat, s: FastPath.State, order: seq<FlowKey>, sent: seq<Sent>, k: nat,
                          job: Job)
    requires Ipv4(f.key) && Enumerates(order, s.tracker.connections) && KeysMatch(s.tracker.connections)
    requires k < |sent| && Filed(env, f, s, sent, k) && job == f.Packet(sent[k]) && Ipv4(job.key)
    ensures OutcomeOf(env, max, s, job, sent[k].now, order) == f.OnLast(env, sent[..k + 1])
    ensures var table := Process(env, max, s, job, sent[k].now, order).tracker.connections;
            f.key.Canonical() in table && table[f.key.Canonical()] == f.Entry(env, sent[..k + 1])
  {
    CanonicalForgetsDirection(f.key);
    LastPacket(env, f, sent, k);
    hide Met, Decide, FromClient, Evict, FlowKey.Canonical;
  }

  /** A name's bytes as text. */
  function Chars(b: bytes): string {
    seq(|b|, i requires 0 <= i < |b| => b[i] as char)
  }

  /**
   Rules, reassembly and verdict together: when the fast path consults these rules, the packet that completes the
   hello in time is dropped exactly if the host's application is blocked or its label list ends with that of a
   rule; a hello that comes too late is dropped exactly if unknown applications are blocked.
   */
  lemma RulesDecideHello(env: Env, rules: Rules.Rules, f: Flow, host: bytes, random: bytes, stream: bytes,
                         sent: seq<Sent>, k: nat)
    requires forall name :: env.domainBlocked(name) == Rules.DomainBlocked(rules, Chars(name))
    requires TlsClient(env, f, host, random, stream, sent) && NotReopened(sent) && k < |sent|
    requires !HelloSent(host, random, sent[..k]) && HelloSent(host, random, sent[..k + 1])
    ensures f.OnLast(env, sent[..k + 1]).verdict == Drop <==>
            if InTime(sent[..k]) then
              env.appOf(host) in env.blockedApps || Rules.UnderSomeRule(rules, Rules.Normalize(Chars(host)))
            else Unknown in env.blockedApps
  {
    HelloIsCaughtIffInTime(env, f, host, random, stream, sent, k);
    assert host != [];
    hide TlsClient, HelloSent, GivenUp, InTime, Rules.UnderSomeRule, Rules.DomainBlocked, Rules.Normalize;
    Rules.BlockedIffUnderSomeRule(rules, Chars(host));
  }
}
