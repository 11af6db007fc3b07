/**
 What a flow's entry remembers, against the packets themselves: times, packets and bytes by direction and the TCP flags
 seen are those of the packets since the entry was made. So cleanup and eviction go by the time of the last packet.
 */
module FlowHistory {
  import opened Bytes
  import opened Flows
  import opened AppTypes
  import opened FlowTable
  import opened FastPath
  import opened Verdicts
  import FlowLedger
  import Inspection
  import Reassembly

  // ---------------------------------------------------------------- the packets of an entry

  /** The packets of flow k among the first n events, since its entry was made. */
  ghost function History(states: seq<State>, events: seq<Event>, n: nat, k: FlowKey): seq<Event>
    requires n < |states| == |events| + 1
  {
    if n == 0 || k !in states[n].tracker.connections then []
    else
      var before := if k in states[n - 1].tracker.connections then History(states, events, n - 1, k) else [];
      if Concerns(events[n - 1], k) then before + [events[n - 1]] else before
  }

  predicate AllPackets(h: seq<Event>) {
    h != [] && forall i :: 0 <= i < |h| ==> h[i].Packet?
  }

  /** Packets of h in the direction of `key`, or in the other one. */
  function Number(h: seq<Event>, key: FlowKey, same: bool): nat {
    if h == [] then 0
    else
      var last := h[|h| - 1];
      Number(h[..|h| - 1], key, same) + if last.Packet? && (last.job.key == key) == same then 1 else 0
  }

  /** Their sizes. */
  function Volume(h: seq<Event>, key: FlowKey, same: bool): nat {
    if h == [] then 0
    else
      var last := h[|h| - 1];
      Volume(h[..|h| - 1], key, same) + if last.Packet? && (last.job.key == key) == same then last.job.size else 0
  }

  predicate OpeningSyn(e: Event) {
    e.Packet? && e.job.key.protocol == 6 && Syn(e.job.tcpFlags) && !Ack(e.job.tcpFlags)
  }

  predicate AnsweringSyn(e: Event) {
    e.Packet? && e.job.key.protocol == 6 && Syn(e.job.tcpFlags) && Ack(e.job.tcpFlags)
  }

  predicate ClosingFin(e: Event) {
    e.Packet? && e.job.key.protocol == 6 && !Syn(e.job.tcpFlags) && Fin(e.job.tcpFlags)
  }

  /** The entry tells what its packets were. */
  ghost predicate Tells(conn: Connection, h: seq<Event>) {
    && AllPackets(h)
    && TellsCounts(conn, h)
    && conn.firstSeen == h[0].now && conn.lastSeen == h[|h| - 1].now
    && conn.originalIsCanonical == (h[0].job.key == h[0].job.key.Canonical())
    && (conn.synSeen <==> exists i :: 0 <= i < |h| && OpeningSyn(h[i]))
    && (conn.synAckSeen <==> exists i :: 0 <= i < |h| && AnsweringSyn(h[i]))
    && (conn.finSeen <==> exists i :: 0 <= i < |h| && ClosingFin(h[i]))
  }

  predicate TellsCounts(conn: Connection, h: seq<Event>)
    requires AllPackets(h)
  {
    var key := h[0].job.key;
    && conn.packetsIn == Number(h, key, true) && conn.packetsOut == Number(h, key, false)
    && conn.bytesIn == Volume(h, key, true) && conn.bytesOut == Volume(h, key, false)
  }

  /** Everything the history tells. */
  predicate SameBooks(a: Connection, b: Connection) {
    && a.flowKey == b.flowKey && a.originalIsCanonical == b.originalIsCanonical
    && a.packetsIn == b.packetsIn && a.packetsOut == b.packetsOut && a.bytesIn == b.bytesIn && a.bytesOut == b.bytesOut
    && a.firstSeen == b.firstSeen && a.lastSeen == b.lastSeen
    && a.synSeen == b.synSeen && a.synAckSeen == b.synAckSeen && a.finSeen == b.finSeen
  }

  lemma SameBooksTell(a: Connection, b: Connection, h: seq<Event>)
    requires SameBooks(a, b) && Tells(b, h)
    ensures Tells(a, h)
  {
  }

  // ---------------------------------------------------------------- one packet

  lemma ExtractedKeepsBooks(env: Env, conn: Connection, job: Job, fromClient: bool)
    requires job.payload != []
    ensures SameBooks(Extracted(env, conn, job, fromClient).0, conn)
  {
    hide Reassembly.Answer, Reassembly.Deliver, ClassifiedAs;
    forall c: Connection, app, sni, httpHost, dnsQuery
      ensures SameBooks(ClassifiedAs(c, app, sni, httpHost, dnsQuery), c)
    {
      ClassifiedKeepsBooks(c, app, sni, httpHost, dnsQuery);
    }
  }

  lemma ClassifiedKeepsBooks(c: Connection, app: AppType, sni: bytes, httpHost: bytes, dnsQuery: bytes)
    ensures SameBooks(ClassifiedAs(c, app, sni, httpHost, dnsQuery), c)
  {
  }

  lemma InspectedKeepsBooks(env: Env, conn: Connection, job: Job, fromClient: bool)
    ensures SameBooks(Inspected(env, conn, job, fromClient), conn)
  {
    if job.payload != [] { ExtractedKeepsBooks(env, conn, job, fromClient); }
    hide Extracted;
  }

  lemma DecideKeepsBooks(env: Env, conn: Connection, job: Job, fromClient: bool)
    requires Ipv4(conn.flowKey)
    ensures SameBooks(Decide(env, conn, job, fromClient).conn, conn)
  {
    InspectedKeepsBooks(env, conn, job, fromClient);
    hide Inspected, Env.Permits;
  }

  lemma OneMoreCounted(h: seq<Event>, e: Event, key: FlowKey, same: bool)
    ensures Number(h + [e], key, same)
         == Number(h, key, same) + if e.Packet? && (e.job.key == key) == same then 1 else 0
    ensures Volume(h + [e], key, same)
         == Volume(h, key, same) + if e.Packet? && (e.job.key == key) == same then e.job.size else 0
  {
    assert (h + [e])[..|h|] == h;
  }

  /** Counting and timing the packet. */
  lemma UpdatedTells(conn: Connection, h: seq<Event>, e: Event)
    requires AllPackets(h) && TellsCounts(conn, h) && e.Packet?
    ensures AllPackets(h + [e])
    ensures TellsCounts(Updated(conn, e.job.size, e.job.key == h[0].job.key, e.now), h + [e])
    ensures Updated(conn, e.job.size, e.job.key == h[0].job.key, e.now).lastSeen == e.now
  {
    OneMoreCounted(h, e, h[0].job.key, true);
    OneMoreCounted(h, e, h[0].job.key, false);
    hide Number, Volume;
  }

  lemma SomeStill(h: seq<Event>, e: Event)
    ensures (exists i :: 0 <= i < |h + [e]| && OpeningSyn((h + [e])[i]))
            <==> (exists i :: 0 <= i < |h| && OpeningSyn(h[i])) || OpeningSyn(e)
    ensures (exists i :: 0 <= i < |h + [e]| && AnsweringSyn((h + [e])[i]))
            <==> (exists i :: 0 <= i < |h| && AnsweringSyn(h[i])) || AnsweringSyn(e)
    ensures (exists i :: 0 <= i < |h + [e]| && ClosingFin((h + [e])[i]))
            <==> (exists i :: 0 <= i < |h| && ClosingFin(h[i])) || ClosingFin(e)
  {
    var all := h + [e];
    assert all[|h|] == e;
    assert forall i :: 0 <= i < |h| ==> all[i] == h[i];
    hide OpeningSyn, AnsweringSyn, ClosingFin;
  }

  /** Following the packet's flags. */
  lemma FlagsFollow(conn: Connection, job: Job, now: nat, order: seq<FlowKey>)
    ensures var met, counted := Met(conn, job, now), Updated(conn, job.size, FromClient(conn, job.key), now);
            var e := Packet(job, now, order);
            && met.synSeen == (conn.synSeen || OpeningSyn(e)) && met.synAckSeen == (conn.synAckSeen || AnsweringSyn(e))
            && met.finSeen == (conn.finSeen || ClosingFin(e))
            && met.packetsIn == counted.packetsIn && met.packetsOut == counted.packetsOut
            && met.bytesIn == counted.bytesIn && met.bytesOut == counted.bytesOut
            && met.firstSeen == conn.firstSeen && met.lastSeen == counted.lastSeen
            && met.originalIsCanonical == conn.originalIsCanonical
  {
    hide FromClient, Syn, Ack, Fin, Rst, TcpUpdated;
    TcpFollows(Updated(conn, job.size, FromClient(conn, job.key), now), job.tcpFlags);
  }

  lemma TcpFollows(conn: Connection, flags: byte)
    ensures var r := TcpUpdated(conn, flags);
            && r.synSeen == (conn.synSeen || (Syn(flags) && !Ack(flags)))
            && r.synAckSeen == (conn.synAckSeen || (Syn(flags) && Ack(flags)))
            && r.finSeen == (conn.finSeen || (!Syn(flags) && Fin(flags)))
            && SameBooks(r, conn.(synSeen := r.synSeen, synAckSeen := r.synAckSeen, finSeen := r.finSeen))
  {
    hide Syn, Ack, Fin, Rst;
  }

  /** One packet more of a tracked flow. */
  lemma MetTells(conn: Connection, h: seq<Event>, e: Event)
    requires Tells(conn, h) && e.Packet? && h[0].job.key.Canonical() == e.job.key.Canonical()
    ensures Tells(Met(conn, e.job, e.now), h + [e])
  {
    FlowLedger.FromClientIffCreatorsKey(e.job.key.Canonical(), conn, h[0].job.key, e.job.key);
    UpdatedTells(conn, h, e);
    SomeStill(h, e);
    FlagsFollow(conn, e.job, e.now, e.order);
    hide Met, Updated, FromClient, OpeningSyn, AnsweringSyn, ClosingFin, Number, Volume, FlowKey.Canonical;
  }

  /** The first packet of a new entry. */
  lemma CreatedTells(e: Event)
    requires e.Packet?
    ensures Tells(Met(Created(e.job.key, e.now), e.job, e.now), [e])
  {
    hide OpeningSyn, AnsweringSyn, ClosingFin, Met, FlowKey.Canonical, Number, Volume, FromClient;
    var conn := Created(e.job.key, e.now);
    var key := e.job.key;
    FlagsFollow(conn, e.job, e.now, e.order);
    CreatorIsClient(key, e.now);
    NothingCounted(key);
    OneMoreCounted([], e, key, true);
    OneMoreCounted([], e, key, false);
    SomeStill([], e);
    assert [] + [e] == [e];
  }

  lemma CreatorIsClient(key: FlowKey, now: nat)
    ensures FromClient(Created(key, now), key)
  {
  }

  lemma NothingCounted(key: FlowKey)
    ensures Number([], key, true) == Number([], key, false) == Volume([], key, true) == Volume([], key, false) == 0
  {
  }

  // ---------------------------------------------------------------- whole runs

  /** The entry of flow k tells what its packets were, all of that flow. */
  ghost predicate TellsOf(conn: Connection, h: seq<Event>, k: FlowKey) {
    Tells(conn, h) && h[0].job.key.Canonical() == k
  }

  ghost predicate AllTell(states: seq<State>, events: seq<Event>, n: nat)
    requires n < |states| == |events| + 1
  {
    forall k <- states[n].tracker.connections ::
      TellsOf(states[n].tracker.connections[k], History(states, events, n, k), k)
  }

  lemma HasPackets(conn: Connection, h: seq<Event>)
    requires Tells(conn, h)
    ensures h != [] && h[0].Packet?
  {
  }

  /** The entry a packet of the flow leaves. */
  lemma OwnPacketTells(env: Env, max: nat, s: State, e: Event, t: State, h: seq<Event>, k: FlowKey)
    requires StepTo(env, max, s, e, t) && Concerns(e, k)
    requires if k in s.tracker.connections then TellsOf(s.tracker.connections[k], h, k) else h == []
    ensures k in t.tracker.connections && TellsOf(t.tracker.connections[k], h + [e], k)
  {
    hide Tells, Met, Decide, FromClient, SameBooks, FlowKey.Canonical, Evict;
    var conn := Inspection.Before(s, e.job, e.now);
    Inspection.FoundIsBefore(env, max, s, e);
    var met := Met(conn, e.job, e.now);
    var fromClient := FromClient(conn, e.job.key);
    DecideKeepsBooks(env, met, e.job, fromClient);
    FlowLedger.ProcessEffect(env, max, s, e.job, e.now, e.order);
    if k in s.tracker.connections {
      MetTells(conn, h, e);
      SameBooksTell(Decide(env, met, e.job, fromClient).conn, met, h + [e]);
      HasPackets(s.tracker.connections[k], h);
      assert (h + [e])[0] == h[0];
    } else {
      CreatedTells(e);
      SameBooksTell(Decide(env, met, e.job, fromClient).conn, met, [e]);
      assert [] + [e] == [e];
    }
  }

  lemma StepTells(env: Env, max: nat, states: seq<State>, events: seq<Event>, n: nat, k: FlowKey)
    requires |states| == |events| + 1 && n < |events| && StepTo(env, max, states[n], events[n], states[n + 1])
    requires AllTell(states, events, n) && k in states[n + 1].tracker.connections
    ensures TellsOf(states[n + 1].tracker.connections[k], History(states, events, n + 1, k), k)
  {
    var s, e, t := states[n], events[n], states[n + 1];
    var h := if k in s.tracker.connections then History(states, events, n, k) else [];
    if Concerns(e, k) {
      OwnPacketTells(env, max, s, e, t, h, k);
    } else {
      NoEntryFromOthers(env, max, s, e, k);
      OthersLeaveEntry(env, max, s, e, k);
    }
    hide TellsOf, Next, FlowKey.Canonical;
  }

  lemma NoEntryFromOthers(env: Env, max: nat, s: State, e: Event, k: FlowKey)
    requires Legal(s, e) && !Concerns(e, k) && k in Next(env, max, s, e).tracker.connections
    ensures k in s.tracker.connections
  {
    hide OutcomeOf, FlowKey.Canonical;
  }

  lemma {:induction false} RunTells(env: Env, max: nat, states: seq<State>, events: seq<Event>, n: nat)
    requires IsRun(env, max, states, events) && n < |states|
    ensures AllTell(states, events, n)
  {
    hide StepTo, TellsOf;
    if n > 0 {
      RunTells(env, max, states, events, n - 1);
      assert StepTo(env, max, states[n - 1], events[n - 1], states[n]);
      forall k | k in states[n].tracker.connections
        ensures TellsOf(states[n].tracker.connections[k], History(states, events, n, k), k)
      {
        StepTells(env, max, states, events, n - 1, k);
      }
    }
  }

  /** In every run, times, counts, bytes and flags of every entry are those of its packets. */
  lemma EntryTellsHistory(env: Env, max: nat, states: seq<State>, events: seq<Event>, n: nat, k: FlowKey)
    requires IsRun(env, max, states, events) && n < |states| && k in states[n].tracker.connections
    ensures Tells(states[n].tracker.connections[k], History(states, events, n, k))
  {
    RunTells(env, max, states, events, n);
    hide IsRun, Tells;
  }

  // ---------------------------------------------------------------- cleanup and eviction by the last packet

  /** When the flow's last packet came. */
  ghost function LastPacketAt(states: seq<State>, events: seq<Event>, n: nat, k: FlowKey): nat
    requires n < |states| == |events| + 1
  {
    var h := History(states, events, n, k);
    if h == [] then 0 else h[|h| - 1].now
  }

  /** Seconds after which an idle entry goes: five minutes, one or two. */
  function Patience(k: FlowKey, state: ConnectionState): nat {
    if k.protocol != 6 then 121 else if state == Established || state == Classified then 301 else 61
  }

  lemma WholeSeconds(age: int, seconds: nat)
    ensures age / 1_000_000_000 > seconds <==> age >= (seconds + 1) * 1_000_000_000
  {
  }

  lemma CleanupTest(table: Table, now: nat, k: FlowKey)
    requires k in table && table[k].flowKey == k
    ensures k in Cleaned(table, now) <==>
            table[k].state != Closed && now - table[k].lastSeen < Patience(k, table[k].state) * 1_000_000_000
    ensures k in Cleaned(table, now) ==> Cleaned(table, now)[k] == table[k]
  {
    var age := now - table[k].lastSeen;
    WholeSeconds(age, 300);
    WholeSeconds(age, 60);
    WholeSeconds(age, 120);
  }

  /**
   A cleanup keeps an entry exactly if it is not closed and less than 301 seconds have passed since its flow's last
   packet, or 61 for TCP that is neither established nor classified, or 121 for what is not TCP.
   */
  lemma CleanupKeepsIff(env: Env, max: nat, states: seq<State>, events: seq<Event>, n: nat, k: FlowKey)
    requires IsRun(env, max, states, events) && n < |events| && events[n].Cleanup?
    requires k in states[n].tracker.connections
    ensures var conn := states[n].tracker.connections[k];
            k in states[n + 1].tracker.connections <==>
            && conn.state != Closed
            && events[n].now - LastPacketAt(states, events, n, k) < Patience(k, conn.state) * 1_000_000_000
    ensures k in states[n + 1].tracker.connections ==>
              states[n + 1].tracker.connections[k] == states[n].tracker.connections[k]
  {
    EntryTellsHistory(env, max, states, events, n, k);
    RunSound(env, max, states, events, n);
    assert StepTo(env, max, states[n], events[n], states[n + 1]);
    CleanupTest(states[n].tracker.connections, events[n].now, k);
    hide Cleaned, History, TellsCounts, FlowKey.Canonical, Patience;
  }

  /** A new flow that finds the table full takes the place of one whose last packet came first of all. */
  lemma EvictsLongestSilent(env: Env, max: nat, states: seq<State>, events: seq<Event>, n: nat)
    returns (gone: FlowKey)
    requires IsRun(env, max, states, events) && n < |events| && events[n].Packet?
    requires var table := states[n].tracker.connections;
             events[n].job.key.Canonical() !in table && table != map[] && |table| >= max
    ensures var table, k := states[n].tracker.connections, events[n].job.key.Canonical();
            gone in table && states[n + 1].tracker.connections.Keys == table.Keys - {gone} + {k}
    ensures forall k <- states[n].tracker.connections ::
              LastPacketAt(states, events, n, gone) <= LastPacketAt(states, events, n, k)
  {
    var s, e := states[n], events[n];
    var table := s.tracker.connections;
    assert StepTo(env, max, s, e, states[n + 1]);
    gone := OneGoes(env, max, s, e);
    forall k | k in table
      ensures LastPacketAt(states, events, n, gone) <= LastPacketAt(states, events, n, k)
    {
      EntryTellsHistory(env, max, states, events, n, gone);
      EntryTellsHistory(env, max, states, events, n, k);
      hide IsRun, History, TellsCounts;
    }
  }

  lemma OneGoes(env: Env, max: nat, s: State, e: Event) returns (gone: FlowKey)
    requires Legal(s, e) && e.Packet?
    requires var table := s.tracker.connections;
             e.job.key.Canonical() !in table && table != map[] && |table| >= max
    ensures var table := s.tracker.connections;
            && gone in table && Next(env, max, s, e).tracker.connections.Keys == table.Keys - {gone}
                                                                                + {e.job.key.Canonical()}
            && forall k <- table :: table[gone].lastSeen <= table[k].lastSeen
  {
    var table := s.tracker.connections;
    EvictionRemovesLeastRecent(table, e.order);
    gone :| gone in table && Evict(table, e.order) == table - {gone}
            && forall k <- table :: table[gone].lastSeen <= table[k].lastSeen;
    hide Process, Evict, FlowKey.Canonical;
    ProcessKeepsKeys(env, max, s, e);
    assert GetOrCreate(s.tracker, max, e.job.key, e.now, e.order).connections.Keys
        == table.Keys - {gone} + {e.job.key.Canonical()};
  }

  lemma ProcessKeepsKeys(env: Env, max: nat, s: State, e: Event)
    requires Legal(s, e) && e.Packet?
    ensures Next(env, max, s, e).tracker.connections.Keys
         == GetOrCreate(s.tracker, max, e.job.key, e.now, e.order).connections.Keys
  {
    hide OutcomeOf, GetOrCreate, FlowKey.Canonical;
  }

  // ---------------------------------------------------------------- the tracker's two counters

  /** What a packet's entry was when the verdict was reached, and what it is afterwards. */
  ghost predicate Blocks(s: State, e: Event, t: State) {
    && e.Packet? && e.job.key.Canonical() in t.tracker.connections
    && Met(Inspection.Before(s, e.job, e.now), e.job, e.now).state != Blocked
    && t.tracker.connections[e.job.key.Canonical()].state == Blocked
  }

  ghost predicate Classifies(env: Env, s: State, e: Event, t: State) {
    && e.Packet? && Ipv4(e.job.key) && e.job.key.Canonical() in t.tracker.connections
    && var before := Met(Inspection.Before(s, e.job, e.now), e.job, e.now).state;
       var after := t.tracker.connections[e.job.key.Canonical()].state;
       && (before == New || before == Established)
       && (after == Classified || (after == Blocked && !env.IpBlocked(e.job.key)))
  }

  /** Packets among the first n events that blocked their flow, and that classified it. */
  ghost function Blockings(states: seq<State>, events: seq<Event>, n: nat): nat
    requires n < |states| == |events| + 1
  {
    if n == 0 then 0
    else Blockings(states, events, n - 1) + if Blocks(states[n - 1], events[n - 1], states[n]) then 1 else 0
  }

  ghost function Classifyings(env: Env, states: seq<State>, events: seq<Event>, n: nat): nat
    requires n < |states| == |events| + 1
  {
    if n == 0 then 0
    else
      Classifyings(env, states, events, n - 1)
      + if Classifies(env, states[n - 1], events[n - 1], states[n]) then 1 else 0
  }

  lemma DecideCounts(env: Env, conn: Connection, job: Job, fromClient: bool)
    requires Ipv4(conn.flowKey)
    ensures var o := Decide(env, conn, job, fromClient);
            && (o.blocked <==> conn.state != Blocked && o.conn.state == Blocked)
            && (o.classified <==>
                && (conn.state == New || conn.state == Established)
                && (o.conn.state == Classified || (o.conn.state == Blocked && !env.IpBlocked(conn.flowKey))))
  {
    if job.payload != [] { ExtractedClassifies(env, conn, job, fromClient); }
    hide Extracted, Env.Permits;
  }

  lemma StepCountsBoth(env: Env, max: nat, s: State, e: Event, t: State)
    requires StepTo(env, max, s, e, t)
    ensures t.tracker.blockedCount == s.tracker.blockedCount + if Blocks(s, e, t) then 1 else 0
    ensures t.tracker.classifiedCount == s.tracker.classifiedCount + if Classifies(env, s, e, t) then 1 else 0
  {
    if e.Packet? {
      hide Decide, Met, FromClient, FlowKey.Canonical, Evict, Env.IpBlocked;
      var conn := Inspection.Before(s, e.job, e.now);
      Inspection.FoundIsBefore(env, max, s, e);
      FlowLedger.ProcessEffect(env, max, s, e.job, e.now, e.order);
      FlowAddresses(env, e.job.key);
      FlowOfBefore(s, e);
      DecideCounts(env, Met(conn, e.job, e.now), e.job, FromClient(conn, e.job.key));
    }
  }

  lemma FlowOfBefore(s: State, e: Event)
    requires Legal(s, e) && e.Packet?
    ensures Met(Inspection.Before(s, e.job, e.now), e.job, e.now).flowKey == e.job.key.Canonical()
  {
  }

  /** In every run the tracker's counters are the packets that blocked their flow and those that classified it. */
  lemma {:induction false} CountersCount(env: Env, max: nat, states: seq<State>, events: seq<Event>, n: nat)
    requires IsRun(env, max, states, events) && n < |states|
    ensures states[n].tracker.blockedCount == Blockings(states, events, n)
    ensures states[n].tracker.classifiedCount == Classifyings(env, states, events, n)
  {
    hide StepTo, Blocks, Classifies;
    if n > 0 {
      CountersCount(env, max, states, events, n - 1);
      assert StepTo(env, max, states[n - 1], events[n - 1], states[n]);
      StepCountsBoth(env, max, states[n - 1], events[n - 1], states[n]);
    }
  }
}
