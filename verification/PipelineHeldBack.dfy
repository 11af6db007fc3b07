/**
 How much a configuration can hold back: all packets to forward where the shares fit, never more than the queues and
 hands behind the parsers have room for, and on a single lane exactly the last packets these take.
 */
module PipelineHeldBack {
  import opened Divisibility
  import opened Routing
  import opened Pipeline
  import opened PipelineProgress
  import opened PipelineOwnership
  import opened PipelineDeals
  import opened PipelineBacklog

  lemma LastIsAll<T>(q: seq<T>, n: nat)
    requires |q| <= n
    ensures Last(q, n) == q
  {
  }

  lemma NothingHeldBack(c: Config, logs: seq<seq<nat>>)
    requires c.Valid() && |logs| == c.balancers
    ensures HeldBack(c, logs, 0) == 0
  {
  }

  // ---------------------------------------------------------------- when everything can be held back

  /** No balancer gets more packets than its queue and its hands hold. */
  predicate SharesFit(c: Config)
    requires c.Valid()
  {
    forall l :: 0 <= l < c.balancers ==> |Accepted(c, l, |c.packets|)| <= c.lbCapacity + 1
  }

  /** Packets to forward among the first n, by lane. */
  function OutgoingLane(c: Config, j: nat, n: nat): nat
    requires c.Valid() && j < c.FastPaths() && n <= |c.packets|
  {
    Forwarded(c, Select(c, Accepted(c, Owner(c, j), n), j))
  }

  function OutgoingLanes(c: Config, k: nat, n: nat): nat
    requires c.Valid() && k <= c.FastPaths() && n <= |c.packets|
  {
    if k == 0 then 0 else OutgoingLanes(c, k - 1, n) + OutgoingLane(c, k - 1, n)
  }

  lemma OutgoingLaneStep(c: Config, j: nat, n: nat)
    requires c.Valid() && j < c.FastPaths() && 0 < n <= |c.packets|
    ensures OutgoingLane(c, j, n)
         == OutgoingLane(c, j, n - 1) + if GoesOut(c, n - 1) && FastPath(c, n - 1) == j then 1 else 0
  {
    var l, p := Owner(c, j), n - 1;
    var before := Accepted(c, l, p);
    OwnerIsBalancer(c, p);
    AcceptedStep(c, l, p);
    hide *;
    NothingForwarded(c);
    NoneSelected(c, j);
    SelectOne(c, p, j);
    SelectConcat(c, before, [p], j);
    ForwardedConcat(c, Select(c, before, j), Select(c, [p], j));
    ForwardedOne(c, p);
    LaneIs(c, j, n);
    LaneIs(c, j, p);
    GoesOutIs(c, p);
  }

  lemma AcceptedStep(c: Config, l: nat, p: nat)
    requires c.Valid() && p < |c.packets|
    ensures Accepted(c, l, p + 1)
         == if c.packets[p].parses && Balancer(c, p) == l then Accepted(c, l, p) + [p] else Accepted(c, l, p)
  {
    assert Accepted(c, l, p) + [] == Accepted(c, l, p);
  }

  lemma LaneIs(c: Config, j: nat, n: nat)
    requires c.Valid() && j < c.FastPaths() && n <= |c.packets|
    ensures OutgoingLane(c, j, n) == Forwarded(c, Select(c, Accepted(c, Owner(c, j), n), j))
  {
  }

  lemma GoesOutIs(c: Config, p: nat)
    requires p < |c.packets|
    ensures GoesOut(c, p) <==> c.packets[p].parses && Forwards(c, p)
  {
  }

  lemma NothingForwarded(c: Config)
    ensures Forwarded(c, []) == 0
  {
  }

  lemma LanesStep(c: Config, k: nat, n: nat)
    requires c.Valid() && 0 < k <= c.FastPaths() && n <= |c.packets|
    ensures OutgoingLanes(c, k, n) == OutgoingLanes(c, k - 1, n) + OutgoingLane(c, k - 1, n)
  {
    hide OutgoingLane;
  }

  lemma NoLanes(c: Config, n: nat)
    requires c.Valid() && n <= |c.packets|
    ensures OutgoingLanes(c, 0, n) == 0
  {
  }

  lemma {:induction false} OutgoingLanesStep(c: Config, k: nat, n: nat)
    requires c.Valid() && k <= c.FastPaths() && 0 < n <= |c.packets|
    ensures OutgoingLanes(c, k, n)
         == OutgoingLanes(c, k, n - 1) + if GoesOut(c, n - 1) && FastPath(c, n - 1) < k then 1 else 0
    decreases k
  {
    hide *;
    if k > 0 {
      OutgoingLanesStep(c, k - 1, n);
      OutgoingLaneStep(c, k - 1, n);
      LanesStep(c, k, n);
      LanesStep(c, k, n - 1);
    } else {
      NoLanes(c, n);
      NoLanes(c, n - 1);
    }
  }

  lemma {:induction false} NoneOutgoing(c: Config, k: nat)
    requires c.Valid() && k <= c.FastPaths()
    ensures OutgoingLanes(c, k, 0) == 0
  {
    if k > 0 {
      NoneOutgoing(c, k - 1);
      assert OutgoingLane(c, k - 1, 0) == 0;
    }
  }

  /** The lanes share out the packets that parse and are forwarded. */
  lemma {:induction false} LanesAddUp(c: Config, n: nat)
    requires c.Valid() && n <= |c.packets|
    ensures OutgoingLanes(c, c.FastPaths(), n) == Outgoing(c, n)
  {
    hide OutgoingLanes, GoesOut, FastPath;
    if n == 0 {
      NoneOutgoing(c, c.FastPaths());
    } else {
      LanesAddUp(c, n - 1);
      OutgoingLanesStep(c, c.FastPaths(), n);
    }
  }

  lemma FittingLaneIsHeld(c: Config, j: nat)
    requires c.Valid() && SharesFit(c) && j < c.FastPaths()
    ensures Forwarded(c, HeldLane(c, Accepted(c, Owner(c, j), |c.packets|), j)) == OutgoingLane(c, j, |c.packets|)
  {
    var log := Accepted(c, Owner(c, j), |c.packets|);
    assert |log| <= c.lbCapacity + 1;
    hide *;
    LaneIs(c, j, |c.packets|);
    HeldLaneIs(c, log, j);
    LastIsAll(log, c.lbCapacity + 1);
    LastIsAll(Select(c, log, j), c.fpCapacity + 1 + |Select(c, log, j)|);
  }

  lemma {:induction false} FittingSharesAreHeld(c: Config, k: nat)
    requires c.Valid() && SharesFit(c) && k <= c.FastPaths()
    ensures HeldBack(c, ReaderLogs(c, |c.packets|), k) == OutgoingLanes(c, k, |c.packets|)
    decreases k
  {
    hide *;
    var logs := ReaderLogs(c, |c.packets|);
    if k > 0 {
      FittingSharesAreHeld(c, k - 1);
      FittingLaneIsHeld(c, k - 1);
      HeldBackStep(c, logs, k);
      LanesStep(c, k, |c.packets|);
    } else {
      NothingHeldBack(c, logs);
      NoLanes(c, |c.packets|);
    }
  }

  // ---------------------------------------------------------------- room for what is held back

  /** What the first r fast paths of balancer l get of a list. */
  function PoolShare(c: Config, q: seq<nat>, l: nat, r: nat): nat
    requires c.Valid()
  {
    if r == 0 then 0 else PoolShare(c, q, l, r - 1) + |Select(c, q, l * c.fpsPerBalancer + (r - 1))|
  }

  predicate InFirst(c: Config, p: nat, l: nat, r: nat)
    requires c.Valid()
  {
    p < |c.packets| && l * c.fpsPerBalancer <= FastPath(c, p) < l * c.fpsPerBalancer + r
  }

  lemma {:induction false} PoolShareStep(c: Config, q: seq<nat>, p: nat, l: nat, r: nat)
    requires c.Valid()
    ensures PoolShare(c, q + [p], l, r) == PoolShare(c, q, l, r) + if InFirst(c, p, l, r) then 1 else 0
    decreases r
  {
    if r > 0 {
      PoolShareStep(c, q, p, l, r - 1);
      assert (q + [p])[..|q|] == q;
    }
  }

  lemma {:induction false} PoolShareAtMost(c: Config, q: seq<nat>, l: nat, r: nat)
    requires c.Valid()
    ensures PoolShare(c, q, l, r) <= |q|
    decreases |q|, r
  {
    if q != [] {
      PoolShareAtMost(c, q[..|q| - 1], l, r);
      PoolShareStep(c, q[..|q| - 1], q[|q| - 1], l, r);
      assert q[..|q| - 1] + [q[|q| - 1]] == q;
      hide PoolShare;
    } else if r > 0 {
      PoolShareAtMost(c, q, l, r - 1);
    }
  }

  lemma {:induction false} ForwardedAtMost(c: Config, q: seq<nat>)
    ensures Forwarded(c, q) <= |q|
  {
    if q != [] { ForwardedAtMost(c, q[..|q| - 1]); }
  }

  lemma HeldLaneAtMost(c: Config, log: seq<nat>, j: nat)
    requires c.Valid()
    ensures Forwarded(c, HeldLane(c, log, j)) <= c.fpCapacity + 1 + |Select(c, Last(log, c.lbCapacity + 1), j)|
  {
    hide *;
    HeldLaneIs(c, log, j);
    ForwardedAtMost(c, HeldLane(c, log, j));
    LastAtMost(Select(c, log, j), c.fpCapacity + 1 + |Select(c, Last(log, c.lbCapacity + 1), j)|);
  }

  lemma LastAtMost<T>(q: seq<T>, n: nat)
    ensures |Last(q, n)| <= n
  {
  }

  /** Fast path r of balancer l's pool. */
  lemma OwnerOfPool(c: Config, l: nat, r: nat)
    requires c.Valid() && l < c.balancers && r < c.fpsPerBalancer
    ensures l * c.fpsPerBalancer + r < c.FastPaths() && Owner(c, l * c.fpsPerBalancer + r) == l
  {
    PoolIndex(l, r, c.balancers, c.fpsPerBalancer);
    var j := l * c.fpsPerBalancer + r;
    hide *;
    DivModUnique(j, c.fpsPerBalancer, l, r);
    OwnerIs(c, j);
  }

  lemma OwnerIs(c: Config, j: nat)
    requires c.Valid() && j < c.FastPaths()
    ensures Owner(c, j) == j / c.fpsPerBalancer
  {
  }

  /** What l balancers and k fast paths can hold, queues and hands. */
  function Room(c: Config, l: nat, k: nat): nat {
    l * (c.lbCapacity + 1) + k * (c.fpCapacity + 1)
  }

  lemma RoomSteps(c: Config, l: nat, k: nat)
    ensures Room(c, l + 1, k) == Room(c, l, k) + c.lbCapacity + 1
            && Room(c, l, k + 1) == Room(c, l, k) + c.fpCapacity + 1
    ensures Room(c, 0, 0) == 0
  {
  }

  lemma PoolShareNext(c: Config, q: seq<nat>, l: nat, r: nat)
    requires c.Valid() && r > 0
    ensures PoolShare(c, q, l, r) == PoolShare(c, q, l, r - 1) + |Select(c, q, l * c.fpsPerBalancer + (r - 1))|
    ensures PoolShare(c, q, l, 0) == 0
  {
  }

  lemma PoolStarts(c: Config, l: nat, r: nat)
    requires c.Valid() && l < c.balancers && r <= c.fpsPerBalancer
    ensures l * c.fpsPerBalancer + r <= c.FastPaths()
    ensures l > 0 ==> l * c.fpsPerBalancer == (l - 1) * c.fpsPerBalancer + c.fpsPerBalancer
    ensures l == c.balancers - 1 && r == c.fpsPerBalancer ==> l * c.fpsPerBalancer + r == c.FastPaths()
    ensures l == 0 ==> l * c.fpsPerBalancer == 0
  {
    PoolIndex(l, if r > 0 then r - 1 else 0, c.balancers, c.fpsPerBalancer);
  }

  lemma {:induction false} HeldBackInPools(c: Config, logs: seq<seq<nat>>, l: nat, r: nat)
    requires c.Valid() && |logs| == c.balancers && l < c.balancers && r <= c.fpsPerBalancer
    requires l * c.fpsPerBalancer + r <= c.FastPaths()
    ensures var k := l * c.fpsPerBalancer + r;
            HeldBack(c, logs, k) <= Room(c, l, k) + PoolShare(c, Last(logs[l], c.lbCapacity + 1), l, r)
    decreases l, r
  {
    hide *;
    var k, end := l * c.fpsPerBalancer + r, Last(logs[l], c.lbCapacity + 1);
    PoolStarts(c, l, r);
    if r > 0 {
      PoolStarts(c, l, r - 1);
      HeldBackInPools(c, logs, l, r - 1);
      OwnerOfPool(c, l, r - 1);
      HeldBackStep(c, logs, k);
      HeldLaneAtMost(c, logs[l], k - 1);
      PoolShareNext(c, end, l, r);
      RoomSteps(c, l, k - 1);
    } else if l > 0 {
      PoolStarts(c, l - 1, c.fpsPerBalancer);
      HeldBackInPools(c, logs, l - 1, c.fpsPerBalancer);
      PoolShareAtMost(c, Last(logs[l - 1], c.lbCapacity + 1), l - 1, c.fpsPerBalancer);
      LastAtMost(logs[l - 1], c.lbCapacity + 1);
      RoomSteps(c, l - 1, k);
    } else {
      NothingHeldBack(c, logs);
    }
  }

  lemma SomeBalancer(c: Config)
    requires c.Valid()
    ensures c.balancers >= 1
  {
  }

  lemma HeldBackAtMost(c: Config, logs: seq<seq<nat>>)
    requires c.Valid() && |logs| == c.balancers
    ensures HeldBack(c, logs, c.FastPaths()) <= Room(c, c.balancers, c.FastPaths())
  {
    hide *;
    SomeBalancer(c);
    var l, r := c.balancers - 1, c.fpsPerBalancer;
    PoolStarts(c, l, r);
    HeldBackInPools(c, logs, l, r);
    PoolShareAtMost(c, Last(logs[l], c.lbCapacity + 1), l, r);
    LastAtMost(logs[l], c.lbCapacity + 1);
    RoomSteps(c, l, c.FastPaths());
  }

  // ---------------------------------------------------------------- one lane

  predicate InInput(c: Config, q: seq<nat>) {
    forall k :: 0 <= k < |q| ==> q[k] < |c.packets|
  }

  lemma {:induction false} SelectAll(c: Config, q: seq<nat>)
    requires c.Valid() && c.FastPaths() == 1 && InInput(c, q)
    ensures Select(c, q, 0) == q
  {
    if q != [] {
      SelectAll(c, q[..|q| - 1]);
      assert FastPath(c, q[|q| - 1]) == 0;
    }
  }

  lemma SingleLaneHolds(c: Config, log: seq<nat>)
    requires c.Valid() && c.FastPaths() == 1 && InInput(c, log)
    ensures HeldLane(c, log, 0) == Last(log, c.lbCapacity + c.fpCapacity + 2)
  {
    hide *;
    LastInInput(c, log, c.lbCapacity + 1);
    SelectAll(c, log);
    SelectAll(c, Last(log, c.lbCapacity + 1));
    HeldLaneIs(c, log, 0);
    LastTwice(log, c.lbCapacity + 1, c.fpCapacity + 1);
  }

  lemma LastInInput(c: Config, q: seq<nat>, n: nat)
    requires InInput(c, q)
    ensures InInput(c, Last(q, n))
  {
  }

  lemma LastTwice<T>(q: seq<T>, m: nat, n: nat)
    ensures Last(q, n + |Last(q, m)|) == Last(q, m + n)
  {
  }

  lemma SingleHeldBack(c: Config, logs: seq<seq<nat>>)
    requires c.Valid() && c.balancers == 1 && c.FastPaths() == 1 && |logs| == 1
    ensures HeldBack(c, logs, 1) == Forwarded(c, HeldLane(c, logs[0], 0))
  {
    hide *;
    NothingHeldBack(c, logs);
    HeldBackStep(c, logs, 1);
  }

  lemma {:induction false} AllAccepted(c: Config, n: nat)
    requires c.Valid() && c.balancers == 1 && n <= |c.packets|
    requires forall p :: 0 <= p < n ==> c.packets[p].parses
    ensures |Accepted(c, 0, n)| == n && forall k :: 0 <= k < n ==> Accepted(c, 0, n)[k] == k
  {
    if n > 0 { AllAccepted(c, n - 1); }
  }

  lemma {:induction false} AllForwarded(c: Config, q: seq<nat>)
    requires forall k :: 0 <= k < |q| ==> Forwards(c, q[k])
    ensures Forwarded(c, q) == |q|
  {
    if q != [] { AllForwarded(c, q[..|q| - 1]); }
  }
}
