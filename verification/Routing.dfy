/**
 Two-level routing: a hash of the canonical five-tuple picks a load balancer, the same hash picks one of that
 balancer's fast paths.
 */
module Routing {
  import opened Divisibility
  import opened Flows

  /** getLBForPacket: which of the `lbs` load balancers. */
  function BalancerOf(hash: nat, lbs: nat): (l: nat)
    requires lbs > 0
    ensures l < lbs
  {
    hash % lbs
  }

  /** selectFP: which of the balancer's own `fps` queues. */
  function SlotOf(hash: nat, fps: nat): (i: nat)
    requires fps > 0
    ensures i < fps
  {
    hash % fps
  }

  /** Global index of the fast path a hash reaches. */
  function FastPathOf(hash: nat, lbs: nat, fps: nat): nat
    requires lbs > 0 && fps > 0
  {
    BalancerOf(hash, lbs) * fps + SlotOf(hash, fps)
  }

  /** Queues l*fps to (l+1)*fps - 1, in order. */
  predicate IsPool<Q(==)>(pool: seq<Q>, l: nat, lbs: nat, fps: nat, queues: seq<Q>)
    requires |queues| == lbs * fps
  {
    |pool| == fps && forall i :: 0 <= i < fps ==> InPool(l, i, lbs, fps) && pool[i] == queues[l * fps + i]
  }

  /** The LBManager constructor: balancer l is given queues l*fps to (l+1)*fps - 1, in order. */
  method BuildPools<Q(==)>(lbs: nat, fps: nat, queues: seq<Q>) returns (pools: seq<seq<Q>>)
    requires |queues| == lbs * fps
    ensures |pools| == lbs && forall l :: 0 <= l < lbs ==> IsPool(pools[l], l, lbs, fps, queues)
  {
    pools := [];
    var l := 0;
    while l < lbs
      invariant l <= lbs && |pools| == l
      invariant forall k :: 0 <= k < l ==> IsPool(pools[k], k, lbs, fps, queues)
    {
      var pool, i := [], 0;
      while i < fps
        invariant i <= fps && |pool| == i
        invariant forall k :: 0 <= k < i ==> InPool(l, k, lbs, fps) && pool[k] == queues[l * fps + k]
      {
        PoolIndex(l, i, lbs, fps);
        pool := pool + [queues[l * fps + i]];
        i := i + 1;
      }
      pools := pools + [pool];
      l := l + 1;
    }
  }

  predicate InPool(l: nat, i: nat, lbs: nat, fps: nat) {
    l * fps <= l * fps + i < (l + 1) * fps <= lbs * fps
  }

  lemma PoolIndex(l: nat, i: nat, lbs: nat, fps: nat)
    requires l < lbs && i < fps
    ensures InPool(l, i, lbs, fps)
  {
    MulMonotone(l + 1, lbs, fps);
    MulMonotone(0, l, fps);
  }

  /** A hash always lands inside the pool of the balancer it chose, and the index determines both choices. */
  lemma LandsInOwnPool(hash: nat, lbs: nat, fps: nat)
    requires lbs > 0 && fps > 0
    ensures var l, x := BalancerOf(hash, lbs), FastPathOf(hash, lbs, fps);
            && l * fps <= x < (l + 1) * fps && x < lbs * fps
            && x / fps == l && x % fps == SlotOf(hash, fps)
  {
    var l, i := BalancerOf(hash, lbs), SlotOf(hash, fps);
    PoolIndex(l, i, lbs, fps);
    DivModUnique(FastPathOf(hash, lbs, fps), fps, l, i);
  }

  /** The chosen balancer and slot depend on the hash only modulo lcm(lbs, fps). */
  lemma DependsOnHashModLcm(hash: nat, lbs: nat, fps: nat)
    requires lbs > 0 && fps > 0
    ensures Lcm(lbs, fps) > 0
    ensures var r := hash % Lcm(lbs, fps);
            BalancerOf(r, lbs) == BalancerOf(hash, lbs) && SlotOf(r, fps) == SlotOf(hash, fps)
  {
    var m := Lcm(lbs, fps);
    LcmFacts(lbs, fps);
    var q := hash / m;
    assert hash % m - hash == m * -q;
    CombinationDivisible(lbs, m, -q, 0, 0);
    CombinationDivisible(fps, m, -q, 0, 0);
    SameRemainder(hash % m, hash, lbs);
    SameRemainder(hash % m, hash, fps);
  }

  /** Some hash sends its packets to slot i of balancer l. */
  ghost predicate Reachable(l: nat, i: nat, lbs: nat, fps: nat)
    requires lbs > 0 && fps > 0
  {
    exists h: nat :: BalancerOf(h, lbs) == l && SlotOf(h, fps) == i
  }

  /**
   Exactly which fast paths can ever receive a packet: slot i of balancer l is reachable if and only if l and i
   agree modulo gcd(lbs, fps).
   */
  lemma ReachableIffCongruent(l: nat, i: nat, lbs: nat, fps: nat)
    requires l < lbs && i < fps
    ensures Reachable(l, i, lbs, fps) <==> (l - i) % Gcd(lbs, fps) == 0
  {
    var g := Gcd(lbs, fps);
    GcdDivides(lbs, fps);
    if Reachable(l, i, lbs, fps) {
      var h: nat :| BalancerOf(h, lbs) == l && SlotOf(h, fps) == i;
      RemaindersAgree(h, lbs, fps, g);
    }
    if (l - i) % g == 0 {
      var h := CongruentWitness(l, i, lbs, fps);
      assert BalancerOf(h, lbs) == l && SlotOf(h, fps) == i;
    }
  }

  lemma CongruentWitness(l: nat, i: nat, lbs: nat, fps: nat) returns (h: nat)
    requires l < lbs && i < fps && (l - i) % Gcd(lbs, fps) == 0
    ensures h < lbs * fps && h % lbs == l && h % fps == i
  {
    var g := Gcd(lbs, fps);
    var x, y := Bezout(lbs, fps);
    var m := (l - i) / g;
    assert l - i == g * m;
    BezoutOffset(lbs, fps, x, y, m, l, i);
    var h0 := l - lbs * (x * m);
    MulPositive(lbs, fps);
    h := h0 % (lbs * fps);
    ReduceModProduct(h0, lbs, fps);
    ReduceModProduct(h0, fps, lbs);
    assert lbs * -(x * m) == -(lbs * (x * m));
    DivModUnique(h0, lbs, -(x * m), l);
    DivModUnique(h0, fps, y * m, i);
  }

  lemma BezoutOffset(a: int, b: int, x: int, y: int, m: int, l: int, i: int)
    requires l - i == (a * x + b * y) * m
    ensures l - a * (x * m) == i + b * (y * m)
  {
    assert a * x * m == a * (x * m);
    assert b * y * m == b * (y * m);
  }

  /** The fast paths that can receive packets. */
  ghost function ReachableFastPaths(lbs: nat, fps: nat): set<nat>
    requires lbs > 0 && fps > 0
  {
    set x | 0 <= x < lbs * fps && Reachable(x / fps, x % fps, lbs, fps)
  }

  /** The first n hashes, by the fast path they reach. */
  ghost function FirstTargets(n: nat, lbs: nat, fps: nat): set<nat>
    requires lbs > 0 && fps > 0
  {
    if n == 0 then {} else FirstTargets(n - 1, lbs, fps) + {FastPathOf(n - 1, lbs, fps)}
  }

  lemma {:induction false} FirstTargetsContents(n: nat, lbs: nat, fps: nat)
    requires lbs > 0 && fps > 0
    ensures forall h :: 0 <= h < n ==> FastPathOf(h, lbs, fps) in FirstTargets(n, lbs, fps)
    ensures forall x <- FirstTargets(n, lbs, fps) :: exists h :: 0 <= h < n && FastPathOf(h, lbs, fps) == x
  {
    if n > 0 { FirstTargetsContents(n - 1, lbs, fps); }
  }

  /** Below the lcm different hashes reach different fast paths. */
  lemma DistinctBelowLcm(h1: nat, h2: nat, lbs: nat, fps: nat)
    requires lbs > 0 && fps > 0 && h1 < h2 < Lcm(lbs, fps)
    ensures FastPathOf(h1, lbs, fps) != FastPathOf(h2, lbs, fps)
  {
    if FastPathOf(h1, lbs, fps) == FastPathOf(h2, lbs, fps) {
      LandsInOwnPool(h1, lbs, fps);
      LandsInOwnPool(h2, lbs, fps);
      SameRemainder(h2, h1, lbs);
      SameRemainder(h2, h1, fps);
      CommonMultiple(lbs, fps, h2 - h1);
      DivModUnique(h2 - h1, Lcm(lbs, fps), 0, h2 - h1);
      assert false;
    }
  }

  lemma {:induction false} FirstTargetsCount(n: nat, lbs: nat, fps: nat)
    requires lbs > 0 && fps > 0 && n <= Lcm(lbs, fps)
    ensures |FirstTargets(n, lbs, fps)| == n
  {
    if n > 0 {
      FirstTargetsCount(n - 1, lbs, fps);
      FirstTargetsContents(n - 1, lbs, fps);
      forall h | 0 <= h < n - 1
        ensures FastPathOf(h, lbs, fps) != FastPathOf(n - 1, lbs, fps)
      {
        DistinctBelowLcm(h, n - 1, lbs, fps);
      }
    }
  }

  /** What some hash reaches, a hash below the lcm reaches. */
  lemma ReachableBelowLcm(x: nat, lbs: nat, fps: nat)
    requires lbs > 0 && fps > 0 && Lcm(lbs, fps) > 0 && x in ReachableFastPaths(lbs, fps)
    ensures exists h :: 0 <= h < Lcm(lbs, fps) && FastPathOf(h, lbs, fps) == x
  {
    var h: nat :| BalancerOf(h, lbs) == x / fps && SlotOf(h, fps) == x % fps;
    DependsOnHashModLcm(h, lbs, fps);
    assert FastPathOf(h % Lcm(lbs, fps), lbs, fps) == x;
  }

  lemma TargetIsReachable(h: nat, lbs: nat, fps: nat)
    requires lbs > 0 && fps > 0
    ensures FastPathOf(h, lbs, fps) in ReachableFastPaths(lbs, fps)
  {
    LandsInOwnPool(h, lbs, fps);
    var x := FastPathOf(h, lbs, fps);
    assert BalancerOf(h, lbs) == x / fps && SlotOf(h, fps) == x % fps;
  }

  lemma ReachableAreFirstTargets(lbs: nat, fps: nat)
    requires lbs > 0 && fps > 0
    ensures ReachableFastPaths(lbs, fps) == FirstTargets(Lcm(lbs, fps), lbs, fps)
  {
    LcmFacts(lbs, fps);
    var m := Lcm(lbs, fps);
    FirstTargetsContents(m, lbs, fps);
    forall x | x in ReachableFastPaths(lbs, fps)
      ensures x in FirstTargets(m, lbs, fps)
    {
      ReachableBelowLcm(x, lbs, fps);
    }
    forall x | x in FirstTargets(m, lbs, fps)
      ensures x in ReachableFastPaths(lbs, fps)
    {
      var h :| 0 <= h < m && FastPathOf(h, lbs, fps) == x;
      TargetIsReachable(h, lbs, fps);
    }
  }

  /** Exactly lcm(lbs, fps) fast paths can receive packets; all of them can if and only if lbs and fps are coprime. */
  lemma ReachableCount(lbs: nat, fps: nat)
    requires lbs > 0 && fps > 0
    ensures |ReachableFastPaths(lbs, fps)| == Lcm(lbs, fps)
    ensures |ReachableFastPaths(lbs, fps)| == lbs * fps <==> Gcd(lbs, fps) == 1
  {
    ReachableAreFirstTargets(lbs, fps);
    FirstTargetsCount(Lcm(lbs, fps), lbs, fps);
    LcmFacts(lbs, fps);
    MulIsSelf(Lcm(lbs, fps), Gcd(lbs, fps));
  }

  /** Both directions of a flow, IPv4 or IPv6, reach one fast path, whatever the hash function is. */
  lemma FlowStaysOnOneFastPath(hash: FiveTuple -> nat, a: Identity, b: Identity, lbs: nat, fps: nat)
    requires lbs > 0 && fps > 0 && FromPacket(a) && FromPacket(b)
    requires a.key.Canonical() == b.key.Canonical()
    ensures FastPathOf(hash(a.tuple.Canonical()), lbs, fps) == FastPathOf(hash(b.tuple.Canonical()), lbs, fps)
  {
    SameFlowSameTuple(a, b);
  }
}
