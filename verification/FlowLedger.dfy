/**
 The flow table's books balance over whole runs: a ledger of every packet ever processed, by flow and direction,
 agrees with the counters of the live entries, the entries removed, and the total.
 */
module FlowLedger {
  import Bytes
  import opened Flows
  import opened FlowTable
  import opened FastPath
  import opened Verdicts
  import Reassembly

  /** Per live flow the keys of its packets since its entry was created; and what removed entries took with them. */
  datatype Ledger = Ledger(seen: map<FlowKey, seq<FlowKey>>, removed: nat, removedPackets: nat)

  ghost function Total(m: map<FlowKey, seq<FlowKey>>): nat {
    if m == map[] then 0
    else
      var k :| k in m;
      |m[k]| + Total(m - {k})
  }

  lemma {:induction false} TotalRemove(m: map<FlowKey, seq<FlowKey>>, k: FlowKey)
    requires k in m
    ensures Total(m) == |m[k]| + Total(m - {k})
    decreases |m|
  {
    var first :| first in m && Total(m) == |m[first]| + Total(m - {first});
    if first != k {
      assert (m - {first}).Keys == m.Keys - {first} && (m - {k}).Keys == m.Keys - {k};
      TotalRemove(m - {first}, k);
      TotalRemove(m - {k}, first);
      assert m - {first} - {k} == m - {k} - {first};
    }
  }

  lemma TotalUpdate(m: map<FlowKey, seq<FlowKey>>, k: FlowKey, q: seq<FlowKey>)
    ensures Total(m[k := q]) == Total(m - {k}) + |q|
  {
    TotalRemove(m[k := q], k);
    assert m[k := q] - {k} == m - {k};
  }

  /** The part of m on the keys in ks. */
  function Only(m: map<FlowKey, seq<FlowKey>>, ks: set<FlowKey>): map<FlowKey, seq<FlowKey>> {
    map k | k in m && k in ks :: m[k]
  }

  lemma OnlyRest(m: map<FlowKey, seq<FlowKey>>, ks: set<FlowKey>, k: FlowKey)
    requires k in m
    ensures Only(m - {k}, ks) == Only(m, ks) - {k}
    ensures k !in ks ==> Only(m - {k}, ks) == Only(m, ks)
    ensures m - {k} - ks == m - ks - {k}
    ensures k in ks ==> m - {k} - ks == m - ks
  {
  }

  lemma {:induction false} TotalSplit(m: map<FlowKey, seq<FlowKey>>, ks: set<FlowKey>)
    ensures Total(m) == Total(m - ks) + Total(Only(m, ks))
    decreases |m|
  {
    if m == map[] {
      assert m - ks == m && Only(m, ks) == m;
    } else {
      var k :| k in m;
      assert (m - {k}).Keys == m.Keys - {k};
      TotalRemove(m, k);
      TotalSplit(m - {k}, ks);
      OnlyRest(m, ks, k);
      if k in ks { TotalRemove(Only(m, ks), k); } else { TotalRemove(m - ks, k); }
    }
  }

  /** The ledger after an event that led from table s to table t. */
  ghost function Advanced(l: Ledger, s: Table, e: Event, t: Table): Ledger {
    var gone := s.Keys - t.Keys;
    var kept := l.seen - gone;
    var seen :=
      if e.Packet? then
        var k := e.job.key.Canonical();
        kept[k := (if k in kept then kept[k] else []) + [e.job.key]]
      else kept;
    Ledger(seen, l.removed + |gone|, l.removedPackets + Total(Only(l.seen, gone)))
  }

  ghost function LedgerOf(states: seq<State>, events: seq<Event>, n: nat): Ledger
    requires n < |states| == |events| + 1
  {
    if n == 0 then Ledger(map[], 0, 0)
    else Advanced(LedgerOf(states, events, n - 1), states[n - 1].tracker.connections, events[n - 1],
      states[n].tracker.connections)
  }

  function CountOf(q: seq<FlowKey>, key: FlowKey): nat {
    multiset(q)[key]
  }

  /**
   The entry's books: packetsIn counts exactly the packets in the direction of the creating packet, packetsOut
   exactly the others.
   */
  predicate EntryBalanced(k: FlowKey, conn: Connection, seen: seq<FlowKey>) {
    && seen != []
    && (forall i :: 0 <= i < |seen| ==> seen[i].Canonical() == k)
    && conn.originalIsCanonical == (seen[0] == k)
    && conn.packetsIn == CountOf(seen, seen[0])
    && conn.packetsIn + conn.packetsOut == |seen|
  }

  predicate EntriesBalanced(table: Table, seen: map<FlowKey, seq<FlowKey>>) {
    table.Keys == seen.Keys && forall k <- table :: EntryBalanced(k, table[k], seen[k])
  }

  ghost predicate Balanced(s: State, l: Ledger) {
    && EntriesBalanced(s.tracker.connections, l.seen)
    && s.tracker.totalSeen == |s.tracker.connections| + l.removed
    && s.processed == Total(l.seen) + l.removedPackets
  }

  /** Direction is remembered correctly: FromClient holds exactly for packets with the creating packet's key. */
  lemma FromClientIffCreatorsKey(k: FlowKey, conn: Connection, creator: FlowKey, key: FlowKey)
    requires creator.Canonical() == k && key.Canonical() == k && conn.originalIsCanonical == (creator == k)
    ensures FromClient(conn, key) <==> key == creator
  {
    SameCanonicalIffSameFlow(creator, key);
    CanonicalForgetsDirection(creator);
    CanonicalForgetsDirection(key);
  }

  lemma UpdatedBalanced(k: FlowKey, conn: Connection, seen: seq<FlowKey>, key: FlowKey, size: nat, now: nat)
    requires EntryBalanced(k, conn, seen) && key.Canonical() == k
    ensures EntryBalanced(k, Updated(conn, size, FromClient(conn, key), now), seen + [key])
  {
    FromClientIffCreatorsKey(k, conn, seen[0], key);
    assert CountOf(seen + [key], seen[0]) == CountOf(seen, seen[0]) + if key == seen[0] then 1 else 0;
  }

  /** A new entry, after its first packet. */
  lemma CreatedBalanced(key: FlowKey, size: nat, now: nat)
    ensures EntryBalanced(key.Canonical(), Updated(Created(key, now), size, FromClient(Created(key, now), key), now),
            [key])
  {
  }

  /** The TCP state machine and the verdict leave the counts alone. */
  predicate SameCounts(a: Connection, b: Connection) {
    a.originalIsCanonical == b.originalIsCanonical && a.packetsIn == b.packetsIn && a.packetsOut == b.packetsOut
  }

  lemma TcpUpdatedSameCounts(conn: Connection, flags: Bytes.byte)
    ensures SameCounts(TcpUpdated(conn, flags), conn)
  {
  }

  lemma DecideSameCounts(env: Env, conn: Connection, job: Job, fromClient: bool)
    requires Ipv4(conn.flowKey)
    ensures SameCounts(Decide(env, conn, job, fromClient).conn, conn)
  {
    InspectedSameCounts(env, conn, job, fromClient);
    hide Inspected, Env.Permits;
  }

  lemma InspectedSameCounts(env: Env, conn: Connection, job: Job, fromClient: bool)
    ensures SameCounts(Inspected(env, conn, job, fromClient), conn)
  {
    if job.payload != [] { ExtractedSameCounts(env, conn, job, fromClient); }
    hide Extracted;
  }

  lemma ExtractedSameCounts(env: Env, conn: Connection, job: Job, fromClient: bool)
    requires job.payload != []
    ensures SameCounts(Extracted(env, conn, job, fromClient).0, conn)
  {
    hide Reassembly.Answer, Reassembly.Deliver, ClassifiedAs;
  }

  /** One packet leaves its entry balanced against the keys seen so far and its own. */
  lemma PacketBalancesEntry(env: Env, k: FlowKey, found: Connection, seen: seq<FlowKey>, job: Job, now: nat)
    requires job.key.Canonical() == k && Ipv4(job.key) && found.flowKey == k
    requires EntryBalanced(k, Updated(found, job.size, FromClient(found, job.key), now), seen)
    ensures Ipv4(Met(found, job, now).flowKey)
    ensures EntryBalanced(k, Decide(env, Met(found, job, now), job, FromClient(found, job.key)).conn, seen)
  {
    CanonicalForgetsDirection(job.key);
    var conn := Updated(found, job.size, FromClient(found, job.key), now);
    TcpUpdatedSameCounts(conn, job.tcpFlags);
    DecideSameCounts(env, Met(found, job, now), job, FromClient(found, job.key));
    hide Decide, Updated, TcpUpdated, FromClient;
  }

  /** Lookup finds the entry, or creates it; other entries are kept as they are or evicted. */
  lemma LookupEffect(t: Tracker, max: nat, key: FlowKey, now: nat, order: seq<FlowKey>)
    requires Enumerates(order, t.connections)
    ensures var k, r := key.Canonical(), GetOrCreate(t, max, key, now, order);
            && r.connections.Keys <= t.connections.Keys + {k}
            && (forall x <- r.connections :: x != k ==> r.connections[x] == t.connections[x])
            && (k in t.connections ==> r == t)
            && (k !in t.connections ==> r.connections[k] == Created(key, now) && r.totalSeen == t.totalSeen + 1)
  {
  }

  /** Any event moves packets between the ledger's columns; only a packet adds one. */
  lemma LedgerTotal(l: Ledger, s: Table, e: Event, t: Table)
    ensures var a := Advanced(l, s, e, t);
            Total(a.seen) + a.removedPackets == Total(l.seen) + l.removedPackets + if e.Packet? then 1 else 0
  {
    hide Total;
    var gone := s.Keys - t.Keys;
    var kept := l.seen - gone;
    TotalSplit(l.seen, gone);
    if e.Packet? {
      var k := e.job.key.Canonical();
      TotalUpdate(kept, k, (if k in kept then kept[k] else []) + [e.job.key]);
      if k in kept { TotalRemove(kept, k); } else { assert kept - {k} == kept; }
    }
  }

  lemma RemovedCount(s: Table, t: Table, k: FlowKey)
    requires k in t && t.Keys <= s.Keys + {k}
    ensures |t| + |s.Keys - t.Keys| == |s| + if k in s then 0 else 1
  {
    var gone := s.Keys - t.Keys;
    if k in s {
      assert s.Keys == t.Keys + gone;
    } else {
      assert s.Keys + {k} == t.Keys + gone;
    }
  }

  /** Keys of the flow's packets up to and including this one. */
  function SeenWith(l: Ledger, job: Job): seq<FlowKey> {
    var k := job.key.Canonical();
    (if k in l.seen then l.seen[k] else []) + [job.key]
  }

  /** The packet's own entry is balanced. */
  lemma PacketEntry(env: Env, max: nat, s: State, l: Ledger, job: Job, now: nat, order: seq<FlowKey>)
    requires Legal(s, Packet(job, now, order)) && EntriesBalanced(s.tracker.connections, l.seen)
    ensures EntryBalanced(job.key.Canonical(), OutcomeOf(env, max, s, job, now, order).conn, SeenWith(l, job))
  {
    hide Decide, Met, GetOrCreate, Updated, FromClient, EntryBalanced, Created;
    var k := job.key.Canonical();
    CanonicalForgetsDirection(job.key);
    LookupEffect(s.tracker, max, job.key, now, order);
    GetOrCreateKeepsKeys(s.tracker, max, job.key, now, order);
    var found := GetOrCreate(s.tracker, max, job.key, now, order).connections[k];
    if k in s.tracker.connections {
      UpdatedBalanced(k, found, l.seen[k], job.key, job.size, now);
    } else {
      CreatedBalanced(job.key, job.size, now);
      assert [] + [job.key] == [job.key];
    }
    PacketBalancesEntry(env, k, found, SeenWith(l, job), job, now);
  }

  /** If the packet's own entry is balanced and the others are kept or evicted, all entries are balanced. */
  lemma EntriesAdvance(s: Table, t: Table, l: Ledger, e: Event)
    requires e.Packet? && EntriesBalanced(s, l.seen)
    requires var k := e.job.key.Canonical();
             && k in t && t.Keys <= s.Keys + {k}
             && (forall x <- t :: x != k ==> t[x] == s[x])
             && EntryBalanced(k, t[k], SeenWith(l, e.job))
    ensures EntriesBalanced(t, Advanced(l, s, e, t).seen)
  {
    hide EntryBalanced, Total, Only;
  }

  /** The effect of processPacket on the table. */
  lemma ProcessEffect(env: Env, max: nat, s: State, job: Job, now: nat, order: seq<FlowKey>)
    requires Legal(s, Packet(job, now, order))
    ensures var k, t := job.key.Canonical(), Process(env, max, s, job, now, order);
            && t.processed == s.processed + 1
            && k in t.tracker.connections && t.tracker.connections[k] == OutcomeOf(env, max, s, job, now, order).conn
            && t.tracker.connections.Keys <= s.tracker.connections.Keys + {k}
            && (forall x <- t.tracker.connections :: x != k ==> t.tracker.connections[x] == s.tracker.connections[x])
            && t.tracker.totalSeen == s.tracker.totalSeen + (if k in s.tracker.connections then 0 else 1)
            && (k in s.tracker.connections ==> t.tracker.connections.Keys == s.tracker.connections.Keys)
  {
    hide OutcomeOf, GetOrCreate;
    LookupEffect(s.tracker, max, job.key, now, order);
  }

  lemma PacketBalances(env: Env, max: nat, s: State, l: Ledger, job: Job, now: nat, order: seq<FlowKey>)
    requires Legal(s, Packet(job, now, order)) && Balanced(s, l)
    ensures var t := Process(env, max, s, job, now, order);
            Balanced(t, Advanced(l, s.tracker.connections, Packet(job, now, order), t.tracker.connections))
  {
    hide Process, OutcomeOf, EntryBalanced, EntriesBalanced, Total, Only;
    var t := Process(env, max, s, job, now, order);
    ProcessEffect(env, max, s, job, now, order);
    PacketEntry(env, max, s, l, job, now, order);
    EntriesAdvance(s.tracker.connections, t.tracker.connections, l, Packet(job, now, order));
    LedgerTotal(l, s.tracker.connections, Packet(job, now, order), t.tracker.connections);
    RemovedCount(s.tracker.connections, t.tracker.connections, job.key.Canonical());
  }

  lemma CleanupBalances(s: State, l: Ledger, now: nat)
    requires Balanced(s, l)
    ensures var t := Cleaned(s.tracker.connections, now);
            Balanced(s.(tracker := s.tracker.(connections := t)), Advanced(l, s.tracker.connections, Cleanup(now), t))
  {
    var table := s.tracker.connections;
    var t := Cleaned(table, now);
    LedgerTotal(l, table, Cleanup(now), t);
    FewerEntries(table, t);
    CleanupEntries(table, t, l, now);
    hide EntriesBalanced, Total, Cleaned, Only;
  }

  lemma FewerEntries(s: Table, t: Table)
    requires t.Keys <= s.Keys
    ensures |s| == |t| + |s.Keys - t.Keys|
  {
    assert s.Keys == t.Keys + (s.Keys - t.Keys);
  }

  lemma CleanupEntries(s: Table, t: Table, l: Ledger, now: nat)
    requires EntriesBalanced(s, l.seen) && t == Cleaned(s, now)
    ensures EntriesBalanced(t, Advanced(l, s, Cleanup(now), t).seen)
  {
    hide EntryBalanced, Total, Only, IsStale;
  }

  lemma {:induction false} RunBalanced(env: Env, max: nat, states: seq<State>, events: seq<Event>, n: nat)
    requires IsRun(env, max, states, events) && n < |states|
    ensures Balanced(states[n], LedgerOf(states, events, n))
  {
    hide Process, Cleaned, Advanced, Balanced;
    if n == 0 {
      EmptyBalanced();
    } else {
      RunBalanced(env, max, states, events, n - 1);
      var s, e, l := states[n - 1], events[n - 1], LedgerOf(states, events, n - 1);
      assert StepTo(env, max, s, e, states[n]);
      match e
      case Packet(job, now, order) => PacketBalances(env, max, s, l, job, now, order);
      case Cleanup(now) => CleanupBalances(s, l, now);
    }
  }

  lemma EmptyBalanced()
    ensures Balanced(Idle, Ledger(map[], 0, 0))
  {
  }

  /**
   The flow table's invariant over whole runs: entries are filed under their own canonical key, the table keeps
   within its limit, every entry counts its packets by direction, entries created are live or removed, and live
   plus removed packet counts sum to the packets processed.
   */
  lemma FlowTableBalances(env: Env, max: nat, states: seq<State>, events: seq<Event>, n: nat)
    requires IsRun(env, max, states, events) && n < |states|
    ensures var s, l := states[n], LedgerOf(states, events, n);
            && KeysMatch(s.tracker.connections)
            && |s.tracker.connections| <= (if max >= 1 then max else 1)
            && EntriesBalanced(s.tracker.connections, l.seen)
            && s.tracker.totalSeen == |s.tracker.connections| + l.removed
            && s.processed == Total(l.seen) + l.removedPackets
  {
    RunBalanced(env, max, states, events, n);
    RunSound(env, max, states, events, n);
    RunWithinLimit(env, max, states, events, n);
  }

  lemma PacketWithinLimit(env: Env, max: nat, s: State, job: Job, now: nat, order: seq<FlowKey>)
    requires Legal(s, Packet(job, now, order)) && |s.tracker.connections| <= (if max >= 1 then max else 1)
    ensures |Process(env, max, s, job, now, order).tracker.connections| <= (if max >= 1 then max else 1)
  {
    hide Decide, Met, FromClient;
    if max >= 1 {
      CreationRespectsLimit(s.tracker, max, job.key, now, order);
    } else if s.tracker.connections != map[] {
      EvictionRemovesLeastRecent(s.tracker.connections, order);
    }
    var r := GetOrCreate(s.tracker, max, job.key, now, order).connections;
    assert Process(env, max, s, job, now, order).tracker.connections.Keys == r.Keys;
  }

  lemma {:induction false} RunWithinLimit(env: Env, max: nat, states: seq<State>, events: seq<Event>, n: nat)
    requires IsRun(env, max, states, events) && n < |states|
    ensures |states[n].tracker.connections| <= (if max >= 1 then max else 1)
  {
    hide Process;
    if n > 0 {
      RunWithinLimit(env, max, states, events, n - 1);
      var s, e := states[n - 1], events[n - 1];
      assert StepTo(env, max, s, e, states[n]);
      match e
      case Packet(job, now, order) => PacketWithinLimit(env, max, s, job, now, order);
      case Cleanup(now) => SubsetSize(Cleaned(s.tracker.connections, now).Keys, s.tracker.connections.Keys);
    }
  }

  lemma {:induction false} SubsetSize(a: set<FlowKey>, b: set<FlowKey>)
    requires a <= b
    ensures |a| <= |b|
  {
    assert b == a + (b - a);
  }
}
