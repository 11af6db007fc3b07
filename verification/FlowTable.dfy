/** The per-worker flow table: entries, creation with eviction, updates, and cleanup of stale entries. */
module FlowTable {
  import opened Bytes
  import opened Flows
  import opened AppTypes
  import Reassembly

  datatype ConnectionState = New | Established | Classified | Blocked | Closed

  datatype PacketAction = Forward | Drop | InspectFurther | LogOnly

  datatype Connection = Connection(
    flowKey: FlowKey,
    originalIsCanonical: bool,
    state: ConnectionState,
    app: AppType,
    sni: bytes,
    httpHost: bytes,
    dnsQuery: bytes,
    packetsIn: nat,
    packetsOut: nat,
    bytesIn: nat,
    bytesOut: nat,
    firstSeen: nat,
    lastSeen: nat,
    action: PacketAction,
    synSeen: bool,
    synAckSeen: bool,
    finSeen: bool,
    client: Reassembly.State)
  {
    function BestDomain(): bytes {
      if sni != [] then sni else if httpHost != [] then httpHost else dnsQuery
    }
  }

  type Table = map<FlowKey, Connection>

  datatype Tracker = Tracker(connections: Table, totalSeen: nat, classifiedCount: nat, blockedCount: nat)

  /** Some iteration order of the hash table: every key, and nothing but keys. */
  predicate Enumerates(order: seq<FlowKey>, table: Table) {
    && (forall k <- order :: k in table)
    && (forall k <- table :: k in order)
  }

  /** The first entry, in iteration order, among those seen least recently. */
  function Oldest(table: Table, order: seq<FlowKey>): (k: FlowKey)
    requires order != [] && forall k <- order :: k in table
    ensures k in order
    ensures forall other <- order :: table[k].lastSeen <= table[other].lastSeen
  {
    var last := order[|order| - 1];
    if |order| == 1 then last
    else
      assert order == order[..|order| - 1] + [last];
      var k := Oldest(table, order[..|order| - 1]);
      if table[last].lastSeen < table[k].lastSeen then last else k
  }

  /** Of several entries seen least recently it is the first in iteration order. */
  lemma {:induction false} OldestIsFirst(table: Table, order: seq<FlowKey>) returns (i: nat)
    requires order != [] && forall k <- order :: k in table
    ensures i < |order| && order[i] == Oldest(table, order)
    ensures forall j :: 0 <= j < i ==> table[order[j]].lastSeen > table[order[i]].lastSeen
  {
    i := |order| - 1;
    if |order| > 1 {
      var front, last := order[..|order| - 1], order[|order| - 1];
      assert order == front + [last];
      var k := Oldest(table, front);
      if table[last].lastSeen < table[k].lastSeen {
        forall j | 0 <= j < |order| - 1
          ensures table[order[j]].lastSeen > table[last].lastSeen
        {
          assert front[j] in front;
        }
      } else {
        i := OldestIsFirst(table, front);
      }
    }
  }

  /** evictOldest() */
  function Evict(table: Table, order: seq<FlowKey>): Table
    requires Enumerates(order, table)
  {
    if table == map[] then table
    else
      var k :| k in table;
      assert k in order;
      table - {Oldest(table, order)}
  }

  /** A new entry for the flow of `key`, created by a packet seen at `now`. */
  function Created(key: FlowKey, now: nat): Connection {
    Connection(key.Canonical(), key == key.Canonical(), New, Unknown, [], [], [], 0, 0, 0, 0, now, now,
               Forward, false, false, false, Reassembly.Initial)
  }

  /** getOrCreateConnection(key), on a table iterated in `order`. */
  function GetOrCreate(t: Tracker, max: nat, key: FlowKey, now: nat, order: seq<FlowKey>): (r: Tracker)
    requires Enumerates(order, t.connections)
    ensures key.Canonical() in r.connections
  {
    var k := key.Canonical();
    if k in t.connections then t
    else
      var table := if |t.connections| >= max then Evict(t.connections, order) else t.connections;
      t.(connections := table[k := Created(key, now)], totalSeen := t.totalSeen + 1)
  }

  /** updateConnection */
  function Updated(conn: Connection, size: nat, fromClient: bool, now: nat): Connection {
    var seen := conn.(lastSeen := now);
    if fromClient then seen.(packetsIn := conn.packetsIn + 1, bytesIn := conn.bytesIn + size)
    else seen.(packetsOut := conn.packetsOut + 1, bytesOut := conn.bytesOut + size)
  }

  /** classifyConnection: only the first classification sets the application, later ones add metadata. */
  function ClassifiedAs(conn: Connection, app: AppType, sni: bytes, httpHost: bytes, dnsQuery: bytes): (r: Connection)
    ensures r.state == Classified && r.flowKey == conn.flowKey && r.originalIsCanonical == conn.originalIsCanonical
    ensures r.packetsIn == conn.packetsIn && r.packetsOut == conn.packetsOut
    ensures conn.state == Classified ==> r.app == conn.app
  {
    var c := if conn.state != Classified then conn.(app := app, state := Classified) else conn;
    c.(sni := if sni != [] then sni else c.sni,
       httpHost := if httpHost != [] then httpHost else c.httpHost,
       dnsQuery := if dnsQuery != [] then dnsQuery else c.dnsQuery)
  }

  /** blockConnection */
  function BlockedConnection(conn: Connection): Connection {
    conn.(state := Blocked, action := Drop)
  }

  const SECOND: nat := 1_000_000_000

  /** cleanupStale's test on one entry; times are nanoseconds of a steady clock. */
  predicate IsStale(conn: Connection, now: nat) {
    var age := (now - conn.lastSeen) / SECOND;
    if conn.state == Closed then true
    else if conn.flowKey.protocol == 6 then
      if conn.state == Established || conn.state == Classified then age > 300 else age > 60
    else age > 120
  }

  /** cleanupStale() */
  function Cleaned(table: Table, now: nat): (r: Table)
    ensures r.Keys <= table.Keys
  {
    map k | k in table && !IsStale(table[k], now) :: table[k]
  }

  /** The table when only the entries of `done` have been examined. */
  function CleanedAmong(table: Table, now: nat, done: seq<FlowKey>): Table {
    map k | k in table && (k in done ==> !IsStale(table[k], now)) :: table[k]
  }

  lemma CleanOneMore(table: Table, now: nat, done: seq<FlowKey>, k: FlowKey)
    requires k in table && k !in done
    ensures var t := CleanedAmong(table, now, done);
            && k in t && t[k] == table[k]
            && CleanedAmong(table, now, done + [k]) == (if IsStale(table[k], now) then t - {k} else t)
  {
  }

  lemma CleanedNone(table: Table, now: nat)
    ensures CleanedAmong(table, now, []) == table
  {
  }

  lemma CleanedAll(table: Table, now: nat, order: seq<FlowKey>)
    requires Enumerates(order, table)
    ensures CleanedAmong(table, now, order) == Cleaned(table, now)
  {
  }

  lemma OneEntryLess(table: Table, k: FlowKey)
    requires k in table
    ensures |table - {k}| == |table| - 1
  {
    assert (table - {k}).Keys == table.Keys - {k};
  }

  // ---------------------------------------------------------------- eviction and cleanup, as promised

  /** Eviction removes exactly one entry, one seen least recently, and keeps the others as they are. */
  lemma EvictionRemovesLeastRecent(table: Table, order: seq<FlowKey>)
    requires Enumerates(order, table) && table != map[]
    ensures exists k :: k in table && Evict(table, order) == table - {k} && |Evict(table, order)| == |table| - 1
                        && forall other <- table :: table[k].lastSeen <= table[other].lastSeen
  {
    var k :| k in table;
    var oldest := Oldest(table, order);
    assert (table - {oldest}).Keys == table.Keys - {oldest};
    forall other | other in table
      ensures table[oldest].lastSeen <= table[other].lastSeen
    {
      assert other in order;
    }
  }

  /** Whatever the order of operations, a table with room for one entry never outgrows its limit. */
  lemma CreationRespectsLimit(t: Tracker, max: nat, key: FlowKey, now: nat, order: seq<FlowKey>)
    requires Enumerates(order, t.connections) && max >= 1 && |t.connections| <= max
    ensures var r := GetOrCreate(t, max, key, now, order);
            && |r.connections| <= max
            && r.totalSeen - |r.connections| - (t.totalSeen - |t.connections|)
               == (if key.Canonical() !in t.connections && |t.connections| >= max then 1 else 0)
  {
    var k := key.Canonical();
    if k !in t.connections {
      if |t.connections| >= max {
        assert t.connections != map[];
        EvictionRemovesLeastRecent(t.connections, order);
      }
      var table := if |t.connections| >= max then Evict(t.connections, order) else t.connections;
      assert k !in table;
      assert table[k := Created(key, now)].Keys == table.Keys + {k};
    }
  }

  // ---------------------------------------------------------------- the class

  class ConnectionTracker {
    const maxConnections: nat
    var connections: Table
    var totalSeen: nat
    var classifiedCount: nat
    var blockedCount: nat

    constructor (maxConnections: nat)
      ensures this.maxConnections == maxConnections && Current() == Tracker(map[], 0, 0, 0)
    {
      this.maxConnections := maxConnections;
      connections, totalSeen, classifiedCount, blockedCount := map[], 0, 0, 0;
    }

    ghost function Current(): Tracker
      reads this
    {
      Tracker(connections, totalSeen, classifiedCount, blockedCount)
    }

    method EvictOldest(order: seq<FlowKey>)
      requires Enumerates(order, connections)
      modifies this`connections
      ensures connections == Evict(old(connections), order)
    {
      if connections == map[] { return; }
      ghost var some :| some in connections;
      assert some in order;
      var oldest := order[0];
      var i := 0;
      while i < |order|
        invariant 0 <= i <= |order|
        invariant oldest == if i == 0 then order[0] else Oldest(connections, order[..i])
        invariant oldest in order
      {
        assert order[..i + 1][..i] == order[..i];
        if connections[order[i]].lastSeen < connections[oldest].lastSeen { oldest := order[i]; }
        i := i + 1;
      }
      assert order[..i] == order;
      connections := connections - {oldest};
    }

    method GetOrCreateConnection(key: FlowKey, now: nat, order: seq<FlowKey>)
      requires Enumerates(order, connections)
      modifies this
      ensures Current() == GetOrCreate(old(Current()), maxConnections, key, now, order)
    {
      var canonical := key.Canonical();
      if canonical in connections { return; }
      if |connections| >= maxConnections { EvictOldest(order); }
      connections := connections[canonical := Created(key, now)];
      totalSeen := totalSeen + 1;
    }

    method UpdateConnection(key: FlowKey, size: nat, fromClient: bool, now: nat)
      requires key in connections
      modifies this`connections
      ensures connections == old(connections)[key := Updated(old(connections)[key], size, fromClient, now)]
    {
      var conn := connections[key].(lastSeen := now);
      if fromClient {
        conn := conn.(packetsIn := conn.packetsIn + 1, bytesIn := conn.bytesIn + size);
      } else {
        conn := conn.(packetsOut := conn.packetsOut + 1, bytesOut := conn.bytesOut + size);
      }
      connections := connections[key := conn];
    }

    method ClassifyConnection(key: FlowKey, app: AppType, sni: bytes, httpHost: bytes, dnsQuery: bytes)
      requires key in connections
      modifies this`connections, this`classifiedCount
      ensures connections == old(connections)[key := ClassifiedAs(old(connections)[key], app, sni, httpHost, dnsQuery)]
      ensures classifiedCount == old(classifiedCount) + if old(connections)[key].state != Classified then 1 else 0
    {
      var conn := connections[key];
      ghost var before := conn;
      if conn.state != Classified {
        conn := conn.(app := app, state := Classified);
        classifiedCount := classifiedCount + 1;
      }
      var name := if sni != [] then sni else conn.sni;
      var host := if httpHost != [] then httpHost else conn.httpHost;
      var query := if dnsQuery != [] then dnsQuery else conn.dnsQuery;
      conn := conn.(sni := name, httpHost := host, dnsQuery := query);
      assert conn == ClassifiedAs(before, app, sni, httpHost, dnsQuery);
      connections := connections[key := conn];
    }

    method BlockConnection(key: FlowKey)
      requires key in connections
      modifies this`connections, this`blockedCount
      ensures connections == old(connections)[key := BlockedConnection(old(connections)[key])]
      ensures blockedCount == old(blockedCount) + 1
    {
      connections := connections[key := connections[key].(state := Blocked, action := Drop)];
      blockedCount := blockedCount + 1;
    }

    method CloseConnection(key: FlowKey)
      modifies this`connections
      ensures connections == var k := key.Canonical();
                             if k in old(connections) then old(connections)[k := old(connections)[k].(state := Closed)]
                             else old(connections)
    {
      var k := key.Canonical();
      if k in connections { connections := connections[k := connections[k].(state := Closed)]; }
    }

    method CleanupStale(now: nat, order: seq<FlowKey>) returns (removed: nat)
      requires Enumerates(order, connections)
      requires forall i, j :: 0 <= i < j < |order| ==> order[i] != order[j]
      modifies this`connections
      ensures connections == Cleaned(old(connections), now)
      ensures removed == |old(connections)| - |connections|
    {
      removed := 0;
      var i := 0;
      CleanedNone(connections, now);
      hide CleanedAmong, IsStale;
      while i < |order|
        invariant 0 <= i <= |order|
        invariant connections == CleanedAmong(old(connections), now, order[..i])
        invariant removed == |old(connections)| - |connections|
      {
        var k := order[i];
        assert order[..i + 1] == order[..i] + [k];
        CleanOneMore(old(connections), now, order[..i], k);
        if IsStale(connections[k], now) {
          OneEntryLess(connections, k);
          connections := connections - {k};
          removed := removed + 1;
        }
        i := i + 1;
      }
      assert order[..i] == order;
      CleanedAll(old(connections), now, order);
    }
  }
}
