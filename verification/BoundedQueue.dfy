/**
 ThreadSafeQueue as a monitor. Each critical section is one atomic step; a thread blocked in a wait is in a
 waiting set until notify_one or notify_all moves it to the notified set, from where (or, spuriously, from the
 waiting set) it re-evaluates its condition. notify_one wakes any one waiting thread, named by the step.
 */
module BoundedQueue {
  type Tid = nat

  datatype Monitor<T> = Monitor(
    capacity: nat,
    items: seq<T>,
    shutdown: bool,
    holding: map<Tid, T>,          // item of each producer blocked inside push
    producersWaiting: set<Tid>,
    producersNotified: set<Tid>,
    consumersWaiting: set<Tid>,
    consumersNotified: set<Tid>,
    pushed: seq<T>,                // accepted items, oldest first
    popped: seq<T>)                // items handed to consumers, oldest first

  function Fresh<T>(capacity: nat): Monitor<T> {
    Monitor(capacity, [], false, map[], {}, {}, {}, {}, [], [])
  }

  function NotifyConsumer<T>(m: Monitor<T>, wake: Tid): Monitor<T> {
    if wake in m.consumersWaiting then
      m.(consumersWaiting := m.consumersWaiting - {wake}, consumersNotified := m.consumersNotified + {wake})
    else m
  }

  function NotifyProducer<T>(m: Monitor<T>, wake: Tid): Monitor<T> {
    if wake in m.producersWaiting then
      m.(producersWaiting := m.producersWaiting - {wake}, producersNotified := m.producersNotified + {wake})
    else m
  }

  function Accept<T>(m: Monitor<T>, x: T, wake: Tid): Monitor<T> {
    NotifyConsumer(m.(items := m.items + [x], pushed := m.pushed + [x]), wake)
  }

  function Take<T>(m: Monitor<T>, wake: Tid): Monitor<T>
    requires m.items != []
  {
    NotifyProducer(m.(items := m.items[1..], popped := m.popped + [m.items[0]]), wake)
  }

  function ProducerLeaves<T>(m: Monitor<T>, t: Tid): Monitor<T> {
    m.(producersWaiting := m.producersWaiting - {t}, producersNotified := m.producersNotified - {t},
      holding := m.holding - {t})
  }

  function ConsumerLeaves<T>(m: Monitor<T>, t: Tid): Monitor<T> {
    m.(consumersWaiting := m.consumersWaiting - {t}, consumersNotified := m.consumersNotified - {t})
  }

  /** push(x) by thread t with the lock held: on entry and at every wakeup. */
  function Push<T>(m: Monitor<T>, t: Tid, x: T, wake: Tid): Monitor<T> {
    if |m.items| >= m.capacity && !m.shutdown then
      m.(producersWaiting := m.producersWaiting + {t}, producersNotified := m.producersNotified - {t},
        holding := m.holding[t := x])
    else if m.shutdown then ProducerLeaves(m, t)
    else Accept(ProducerLeaves(m, t), x, wake)
  }

  function TryPush<T>(m: Monitor<T>, x: T, wake: Tid): Monitor<T> {
    if |m.items| >= m.capacity || m.shutdown then m else Accept(m, x, wake)
  }

  /** pop() or popWithTimeout() by thread t with the lock held: on entry and at every wakeup. */
  function Pop<T>(m: Monitor<T>, t: Tid, wake: Tid): Monitor<T> {
    if m.items == [] && !m.shutdown then
      m.(consumersWaiting := m.consumersWaiting + {t}, consumersNotified := m.consumersNotified - {t})
    else if m.items == [] then ConsumerLeaves(m, t)
    else Take(ConsumerLeaves(m, t), wake)
  }

  /** The timeout of popWithTimeout: an item that is there by now is still taken. */
  function GiveUp<T>(m: Monitor<T>, t: Tid, wake: Tid): Monitor<T> {
    if m.items == [] then ConsumerLeaves(m, t) else Take(ConsumerLeaves(m, t), wake)
  }

  function Shutdown<T>(m: Monitor<T>): Monitor<T> {
    m.(shutdown := true,
       producersWaiting := {}, producersNotified := m.producersNotified + m.producersWaiting,
       consumersWaiting := {}, consumersNotified := m.consumersNotified + m.consumersWaiting)
  }

  datatype Step<T> =
    | EnterPush(t: Tid, x: T, wake: Tid)
    | ResumePush(t: Tid, wake: Tid)
    | AttemptPush(x: T, wake: Tid)
    | EnterPop(t: Tid, wake: Tid)
    | ResumePop(t: Tid, wake: Tid)
    | TimeOut(t: Tid, wake: Tid)
    | ShutDown

  predicate Blocked<T>(m: Monitor<T>, t: Tid) {
    t in m.producersWaiting + m.producersNotified + m.consumersWaiting + m.consumersNotified
  }

  /** The thread is where the step needs it, and notify_one picks a waiting thread when there is one. */
  predicate Enabled<T>(m: Monitor<T>, s: Step<T>) {
    match s
    case EnterPush(t, _, wake) => !Blocked(m, t) && WakesConsumer(m, wake)
    case ResumePush(t, wake) => t in m.producersWaiting + m.producersNotified && WakesConsumer(m, wake)
    case AttemptPush(_, wake) => WakesConsumer(m, wake)
    case EnterPop(t, wake) => !Blocked(m, t) && WakesProducer(m, wake)
    case ResumePop(t, wake) => t in m.consumersWaiting + m.consumersNotified && WakesProducer(m, wake)
    case TimeOut(t, wake) => t in m.consumersWaiting + m.consumersNotified && WakesProducer(m, wake)
    case ShutDown => true
  }

  predicate WakesConsumer<T>(m: Monitor<T>, wake: Tid) {
    m.consumersWaiting != {} ==> wake in m.consumersWaiting
  }

  predicate WakesProducer<T>(m: Monitor<T>, wake: Tid) {
    m.producersWaiting != {} ==> wake in m.producersWaiting
  }

  function Apply<T>(m: Monitor<T>, s: Step<T>): Monitor<T>
    requires Enabled(m, s) && ProducerSide(m)
  {
    match s
    case EnterPush(t, x, wake) => Push(m, t, x, wake)
    case ResumePush(t, wake) => Push(m, t, m.holding[t], wake)
    case AttemptPush(x, wake) => TryPush(m, x, wake)
    case EnterPop(t, wake) => Pop(m, t, wake)
    case ResumePop(t, wake) => Pop(m, t, wake)
    case TimeOut(t, wake) => GiveUp(m, t, wake)
    case ShutDown => Shutdown(m)
  }

  predicate HoldTheirItems<T>(m: Monitor<T>) {
    forall t <- m.producersWaiting + m.producersNotified :: t in m.holding
  }

  /**
   Blocked producers hold an item, nobody is both waiting and notified, and while a producer sleeps un-notified
   every free slot has a notified producer on its way.
   */
  predicate ProducerSide<T>(m: Monitor<T>) {
    && HoldTheirItems(m)
    && m.producersWaiting !! m.producersNotified
    && (m.shutdown ==> m.producersWaiting == {})
    && (m.producersWaiting != {} ==> |m.producersNotified| >= m.capacity - |m.items|)
  }

  /** While a consumer sleeps un-notified, every item has a notified consumer on its way. */
  predicate ConsumerSide<T>(m: Monitor<T>) {
    && m.consumersWaiting !! m.consumersNotified
    && (m.shutdown ==> m.consumersWaiting == {})
    && (m.consumersWaiting != {} ==> |m.consumersNotified| >= |m.items|)
  }

  /** The capacity is respected, and what was popped is a FIFO prefix of what was accepted. */
  ghost predicate Contents<T>(m: Monitor<T>) {
    |m.items| <= m.capacity && m.pushed == m.popped + m.items
  }

  ghost predicate Invariant<T>(m: Monitor<T>) {
    ProducerSide(m) && ConsumerSide(m) && Contents(m)
  }

  /** One more item and one more notified consumer. */
  lemma AcceptKeepsConsumers<T>(m: Monitor<T>, x: T, wake: Tid)
    requires ConsumerSide(m) && WakesConsumer(m, wake)
    ensures ConsumerSide(Accept(m, x, wake))
  {
    if wake in m.consumersWaiting {
      assert |m.consumersNotified + {wake}| == |m.consumersNotified| + 1;
    }
  }

  /** One more free slot and one more notified producer. */
  lemma TakeKeepsProducers<T>(m: Monitor<T>, wake: Tid)
    requires ProducerSide(m) && WakesProducer(m, wake) && m.items != []
    ensures ProducerSide(Take(m, wake))
  {
    if wake in m.producersWaiting {
      assert |m.producersNotified + {wake}| == |m.producersNotified| + 1;
    }
  }

  lemma RemoveOne(s: set<Tid>, t: Tid)
    ensures |s - {t}| >= |s| - 1
  {
    if t in s {
      assert |s - {t}| == |s| - 1;
    } else {
      assert s - {t} == s;
    }
  }

  /** A producer that leaves its wait is at most one notified producer fewer. */
  lemma LeavingProducer<T>(m: Monitor<T>, t: Tid)
    requires ProducerSide(m)
    ensures var r := ProducerLeaves(m, t);
            && HoldTheirItems(r)
            && r.producersWaiting !! r.producersNotified
            && |r.producersNotified| >= |m.producersNotified| - 1
  {
    RemoveOne(m.producersNotified, t);
    var r := ProducerLeaves(m, t);
    forall u | u in r.producersWaiting + r.producersNotified
      ensures u in r.holding
    {
      assert u in m.producersWaiting + m.producersNotified && u != t;
    }
  }

  /** A producer goes to sleep only when there is no free slot. */
  lemma SleepingProducer<T>(m: Monitor<T>, t: Tid, x: T, wake: Tid)
    requires ProducerSide(m) && |m.items| >= m.capacity && !m.shutdown
    ensures ProducerSide(Push(m, t, x, wake))
  {
    var r := Push(m, t, x, wake);
    assert r == m.(producersWaiting := m.producersWaiting + {t}, producersNotified := m.producersNotified - {t},
                   holding := m.holding[t := x]);
  }

  lemma PushKeepsProducers<T>(m: Monitor<T>, t: Tid, x: T, wake: Tid)
    requires ProducerSide(m)
    ensures ProducerSide(Push(m, t, x, wake))
  {
    if |m.items| >= m.capacity && !m.shutdown {
      SleepingProducer(m, t, x, wake);
    } else {
      LeavingProducer(m, t);
      assert m.producersWaiting == {} ==> m.producersWaiting - {t} == {};
      if !m.shutdown { AcceptIgnoresProducers(ProducerLeaves(m, t), x, wake); }
    }
  }

  lemma AcceptIgnoresProducers<T>(m: Monitor<T>, x: T, wake: Tid)
    ensures var r := Accept(m, x, wake);
            && r.producersWaiting == m.producersWaiting && r.producersNotified == m.producersNotified
            && r.holding == m.holding && |r.items| == |m.items| + 1
            && r.shutdown == m.shutdown && r.capacity == m.capacity
  {
  }

  lemma PopKeepsConsumers<T>(m: Monitor<T>, t: Tid, wake: Tid)
    requires ConsumerSide(m)
    ensures ConsumerSide(Pop(m, t, wake)) && ConsumerSide(GiveUp(m, t, wake))
  {
    RemoveOne(m.consumersNotified, t);
  }

  lemma PushKeepsInvariant<T>(m: Monitor<T>, t: Tid, x: T, wake: Tid)
    requires Invariant(m) && WakesConsumer(m, wake)
    ensures Invariant(Push(m, t, x, wake))
  {
    PushKeepsProducers(m, t, x, wake);
    AcceptKeepsConsumers(ProducerLeaves(m, t), x, wake);
    assert m.popped + (m.items + [x]) == m.popped + m.items + [x];
  }

  lemma TakeKeepsContents<T>(m: Monitor<T>, wake: Tid)
    requires Contents(m) && m.items != []
    ensures Contents(Take(m, wake))
  {
    assert m.popped + m.items == m.popped + [m.items[0]] + m.items[1..];
  }

  lemma PopKeepsInvariant<T>(m: Monitor<T>, t: Tid, wake: Tid)
    requires Invariant(m) && WakesProducer(m, wake)
    ensures Invariant(Pop(m, t, wake)) && Invariant(GiveUp(m, t, wake))
  {
    PopKeepsConsumers(m, t, wake);
    if m.items != [] {
      TakeKeepsProducers(ConsumerLeaves(m, t), wake);
      TakeKeepsContents(ConsumerLeaves(m, t), wake);
    }
  }

  lemma TryPushKeepsInvariant<T>(m: Monitor<T>, x: T, wake: Tid)
    requires Invariant(m) && WakesConsumer(m, wake)
    ensures Invariant(TryPush(m, x, wake))
  {
    AcceptKeepsConsumers(m, x, wake);
    assert m.popped + (m.items + [x]) == m.popped + m.items + [x];
  }

  lemma StepKeepsInvariant<T>(m: Monitor<T>, s: Step<T>)
    requires Invariant(m) && Enabled(m, s)
    ensures Invariant(Apply(m, s))
    ensures Apply(m, s).capacity == m.capacity
  {
    match s
    case EnterPush(t, x, wake) => PushKeepsInvariant(m, t, x, wake);
    case ResumePush(t, wake) => PushKeepsInvariant(m, t, m.holding[t], wake);
    case AttemptPush(x, wake) => TryPushKeepsInvariant(m, x, wake);
    case EnterPop(t, wake) => PopKeepsInvariant(m, t, wake);
    case ResumePop(t, wake) => PopKeepsInvariant(m, t, wake);
    case TimeOut(t, wake) => PopKeepsInvariant(m, t, wake);
    case ShutDown =>
  }

  ghost predicate StepTo<T>(m: Monitor<T>, s: Step<T>, n: Monitor<T>) {
    ProducerSide(m) && Enabled(m, s) && Apply(m, s) == n
  }

  /** A run: a list of monitor states, each reached from the one before by an enabled step. */
  ghost predicate IsRun<T>(states: seq<Monitor<T>>, steps: seq<Step<T>>) {
    |states| == |steps| + 1 && forall i :: 0 <= i < |steps| ==> StepTo(states[i], steps[i], states[i + 1])
  }

  lemma {:induction false} RunKeepsInvariant<T>(states: seq<Monitor<T>>, steps: seq<Step<T>>, n: nat)
    requires IsRun(states, steps) && Invariant(states[0]) && n < |states|
    ensures Invariant(states[n]) && states[n].capacity == states[0].capacity
  {
    if n > 0 {
      RunKeepsInvariant(states, steps, n - 1);
      assert StepTo(states[n - 1], steps[n - 1], states[n]);
      StepKeepsInvariant(states[n - 1], steps[n - 1]);
    }
  }

  /**
   No wakeup is lost, in any interleaving: before shutdown a producer sleeps un-notified next to free slots only
   while at least that many notified producers are still to run, and dually for consumers and items. The
   queue never exceeds its capacity and hands out the accepted items in order.
   */
  lemma NoLostWakeup<T>(capacity: nat, states: seq<Monitor<T>>, steps: seq<Step<T>>, n: nat)
    requires IsRun(states, steps) && states[0] == Fresh(capacity) && n < |states|
    ensures var m := states[n];
            && |m.items| <= capacity && m.pushed == m.popped + m.items
            && (!m.shutdown && m.producersWaiting != {} && |m.items| < capacity ==>
                  0 < capacity - |m.items| <= |m.producersNotified|)
            && (!m.shutdown && m.consumersWaiting != {} && m.items != [] ==> 0 < |m.items| <= |m.consumersNotified|)
            && (m.shutdown ==> m.producersWaiting == {} && m.consumersWaiting == {})
  {
    RunKeepsInvariant(states, steps, n);
  }

  predicate Pops<T>(s: Step<T>) {
    s.EnterPop? || s.ResumePop? || s.TimeOut?
  }

  /** Pops among the steps from n up to k, by whatever threads. */
  function PopsFrom<T>(steps: seq<Step<T>>, n: nat, k: nat): nat
    requires n <= k <= |steps|
    decreases k
  {
    if k == n then 0 else PopsFrom(steps, n, k - 1) + if Pops(steps[k - 1]) then 1 else 0
  }

  /** After shutdown a step never blocks and adds nothing; a pop takes the head while there is one. */
  lemma StepAfterShutdown<T>(m: Monitor<T>, s: Step<T>, r: Monitor<T>)
    requires m.shutdown && StepTo(m, s, r)
    ensures r.shutdown && r.pushed == m.pushed
    ensures if Pops(s) && m.items != [] then r.items == m.items[1..] && r.popped == m.popped + [m.items[0]]
            else r.items == m.items && r.popped == m.popped
    ensures r.producersWaiting <= m.producersWaiting && r.consumersWaiting <= m.consumersWaiting
  {
  }

  /**
   After shutdown nothing is lost and nothing blocks: however the threads interleave, n pops hand out exactly the
   next n items that were left, in order, until none is left.
   */
  lemma {:induction false} DrainAfterShutdown<T>(states: seq<Monitor<T>>, steps: seq<Step<T>>, n: nat, k: nat)
    requires IsRun(states, steps) && n <= k < |states| && states[n].shutdown
    ensures var m, r, pops := states[n], states[k], PopsFrom(steps, n, k);
            var taken := if pops <= |m.items| then pops else |m.items|;
            && r.shutdown && r.pushed == m.pushed
            && r.popped == m.popped + m.items[..taken] && r.items == m.items[taken..]
            && r.producersWaiting <= m.producersWaiting && r.consumersWaiting <= m.consumersWaiting
    decreases k
  {
    hide Apply, Enabled, ProducerSide, StepTo;
    if k > n {
      DrainAfterShutdown(states, steps, n, k - 1);
      assert StepTo(states[k - 1], steps[k - 1], states[k]);
      StepAfterShutdown(states[k - 1], steps[k - 1], states[k]);
      var pops := PopsFrom(steps, n, k - 1);
      if pops < |states[n].items| { TakenOneMore(states[n].items, pops); }
    }
  }

  lemma TakenOneMore<T>(items: seq<T>, k: nat)
    requires k < |items|
    ensures items[k..] != [] && items[k..][0] == items[k] && items[k..][1..] == items[k + 1..]
    ensures items[..k] + [items[k]] == items[..k + 1]
  {
  }

  // ---------------------------------------------------------------- what each call does

  /** The item a step offers to the queue, if it is a push: a resumed one offers what its thread holds. */
  function Offer<T>(m: Monitor<T>, s: Step<T>): seq<T>
    requires Enabled(m, s) && ProducerSide(m)
  {
    match s
    case EnterPush(_, x, _) => [x]
    case AttemptPush(x, _) => [x]
    case ResumePush(t, _) => [m.holding[t]]
    case _ => []
  }

  /** An offer is accepted exactly if there is room and no shutdown; a pop takes the head exactly if there is one. */
  lemma StepAcceptsAndTakes<T>(m: Monitor<T>, s: Step<T>, r: Monitor<T>)
    requires StepTo(m, s, r)
    ensures r.pushed == m.pushed + if |m.items| < m.capacity && !m.shutdown then Offer(m, s) else []
    ensures r.popped == m.popped + if Pops(s) && m.items != [] then [m.items[0]] else []
    ensures r.shutdown <==> m.shutdown || s.ShutDown?
  {
  }

  /**
   The thread of a push sleeps exactly if the queue is full and not shut down, holding its item; the thread of a pop
   exactly if the queue is empty and not shut down and its time is not up. Otherwise it is done.
   */
  lemma SleepsIff<T>(m: Monitor<T>, s: Step<T>, r: Monitor<T>)
    requires StepTo(m, s, r)
    ensures s.EnterPush? || s.ResumePush? ==>
              if |m.items| >= m.capacity && !m.shutdown then
                s.t in r.producersWaiting && s.t in r.holding && [r.holding[s.t]] == Offer(m, s)
              else s.t !in r.producersWaiting + r.producersNotified
    ensures s.EnterPop? || s.ResumePop? || s.TimeOut? ==>
              if m.items == [] && !m.shutdown && !s.TimeOut? then s.t in r.consumersWaiting
              else s.t !in r.consumersWaiting + r.consumersNotified
    ensures s.ShutDown? ==> r.producersWaiting == r.consumersWaiting == {}
  {
  }

  /** The thread a step is of, if any. */
  predicate IsOf<T>(s: Step<T>, u: Tid) {
    (s.EnterPush? || s.ResumePush? || s.EnterPop? || s.ResumePop? || s.TimeOut?) && s.t == u
  }

  /** A thread is where it was, in its call or out of it, and is no longer to be woken if it was woken. */
  predicate KeepsPlace<T(==)>(m: Monitor<T>, r: Monitor<T>, u: Tid) {
    && (u in r.producersWaiting + r.producersNotified <==> u in m.producersWaiting + m.producersNotified)
    && (u in r.consumersWaiting + r.consumersNotified <==> u in m.consumersWaiting + m.consumersNotified)
    && (u in m.producersNotified ==> u in r.producersNotified)
    && (u in m.consumersNotified ==> u in r.consumersNotified)
    && (u in m.holding ==> u in r.holding && r.holding[u] == m.holding[u])
  }

  lemma PushKeepsPlaces<T>(m: Monitor<T>, t: Tid, x: T, wake: Tid, u: Tid)
    requires u != t
    ensures KeepsPlace(m, Push(m, t, x, wake), u)
  {
  }

  lemma TryPushKeepsPlaces<T>(m: Monitor<T>, x: T, wake: Tid, u: Tid)
    ensures KeepsPlace(m, TryPush(m, x, wake), u)
  {
  }

  lemma PopKeepsPlaces<T>(m: Monitor<T>, t: Tid, wake: Tid, u: Tid)
    requires u != t
    ensures KeepsPlace(m, Pop(m, t, wake), u) && KeepsPlace(m, GiveUp(m, t, wake), u)
  {
  }

  lemma ShutdownWakesAll<T>(m: Monitor<T>, u: Tid)
    ensures KeepsPlace(m, Shutdown(m), u)
    ensures u in m.producersWaiting ==> u in Shutdown(m).producersNotified
    ensures u in m.consumersWaiting ==> u in Shutdown(m).consumersNotified
  {
  }

  /** No other thread leaves its call or falls asleep again; those asleep at a shutdown are woken, all of them. */
  lemma OthersKeepTheirPlace<T>(m: Monitor<T>, s: Step<T>, r: Monitor<T>, u: Tid)
    requires StepTo(m, s, r) && !IsOf(s, u)
    ensures KeepsPlace(m, r, u)
    ensures s.ShutDown? && u in m.producersWaiting ==> u in r.producersNotified
    ensures s.ShutDown? && u in m.consumersWaiting ==> u in r.consumersNotified
  {
    hide Push, TryPush, Pop, GiveUp, Shutdown, KeepsPlace;
    match s
    case EnterPush(t, x, wake) => PushKeepsPlaces(m, t, x, wake, u);
    case ResumePush(t, wake) => PushKeepsPlaces(m, t, m.holding[t], wake, u);
    case AttemptPush(x, wake) => TryPushKeepsPlaces(m, x, wake, u);
    case EnterPop(t, wake) => PopKeepsPlaces(m, t, wake, u);
    case ResumePop(t, wake) => PopKeepsPlaces(m, t, wake, u);
    case TimeOut(t, wake) => PopKeepsPlaces(m, t, wake, u);
    case ShutDown => ShutdownWakesAll(m, u);
  }

  /** The offers accepted in the first n steps, in order. */
  ghost function AcceptedOffers<T>(states: seq<Monitor<T>>, steps: seq<Step<T>>, n: nat): seq<T>
    requires IsRun(states, steps) && n < |states|
  {
    if n == 0 then []
    else
      var m := states[n - 1];
      assert StepTo(m, steps[n - 1], states[n]);
      AcceptedOffers(states, steps, n - 1)
      + if |m.items| < m.capacity && !m.shutdown then Offer(m, steps[n - 1]) else []
  }

  /** What is handed out and what is still in the queue are the accepted offers, in the order they were accepted. */
  lemma {:induction false} QueueHoldsAcceptedOffers<T>(capacity: nat, states: seq<Monitor<T>>, steps: seq<Step<T>>,
                                                       n: nat)
    requires IsRun(states, steps) && states[0] == Fresh(capacity) && n < |states|
    ensures states[n].popped + states[n].items == AcceptedOffers(states, steps, n) == states[n].pushed
  {
    hide StepTo, Offer, Enabled;
    NoLostWakeup(capacity, states, steps, n);
    if n > 0 {
      QueueHoldsAcceptedOffers(capacity, states, steps, n - 1);
      assert StepTo(states[n - 1], steps[n - 1], states[n]);
      StepAcceptsAndTakes(states[n - 1], steps[n - 1], states[n]);
    }
  }

  // ---------------------------------------------------------------- the class

  datatype PushOutcome = Pushed | Discarded | Sleeping

  datatype PopOutcome<T> = Got(item: T) | Nothing | Asleep

  class ThreadSafeQueue<T> {
    const maxSize: nat
    var queue: seq<T>
    var shutdown: bool
    var holding: map<Tid, T>
    var producersWaiting: set<Tid>
    var producersNotified: set<Tid>
    var consumersWaiting: set<Tid>
    var consumersNotified: set<Tid>
    ghost var pushed: seq<T>
    ghost var popped: seq<T>

    constructor (maxSize: nat)
      ensures this.maxSize == maxSize && Snapshot() == Fresh(maxSize)
    {
      this.maxSize := maxSize;
      queue, shutdown, holding := [], false, map[];
      producersWaiting, producersNotified, consumersWaiting, consumersNotified := {}, {}, {}, {};
      pushed, popped := [], [];
    }

    ghost function Snapshot(): Monitor<T>
      reads this
    {
      Monitor(maxSize, queue, shutdown, holding, producersWaiting, producersNotified,
              consumersWaiting, consumersNotified, pushed, popped)
    }

    /** not_empty_.notify_one() */
    method NotifyOneConsumer(wake: Tid)
      modifies this
      ensures Snapshot() == NotifyConsumer(old(Snapshot()), wake)
    {
      if wake in consumersWaiting {
        consumersWaiting := consumersWaiting - {wake};
        consumersNotified := consumersNotified + {wake};
      }
    }

    /** not_full_.notify_one() */
    method NotifyOneProducer(wake: Tid)
      modifies this
      ensures Snapshot() == NotifyProducer(old(Snapshot()), wake)
    {
      if wake in producersWaiting {
        producersWaiting := producersWaiting - {wake};
        producersNotified := producersNotified + {wake};
      }
    }

    /** push, from taking the lock (or waking with it) to releasing it (or going to sleep). */
    method PushLocked(t: Tid, item: T, wake: Tid) returns (r: PushOutcome)
      modifies this
      ensures Snapshot() == Push(old(Snapshot()), t, item, wake)
      ensures r == if old(|queue| >= maxSize && !shutdown) then Sleeping
                   else if old(shutdown) then Discarded else Pushed
    {
      if |queue| >= maxSize && !shutdown {
        producersWaiting := producersWaiting + {t};
        producersNotified := producersNotified - {t};
        holding := holding[t := item];
        return Sleeping;
      }
      producersWaiting := producersWaiting - {t};
      producersNotified := producersNotified - {t};
      holding := holding - {t};
      if shutdown { return Discarded; }
      queue := queue + [item];
      pushed := pushed + [item];
      NotifyOneConsumer(wake);
      r := Pushed;
    }

    method TryPushLocked(item: T, wake: Tid) returns (ok: bool)
      modifies this
      ensures Snapshot() == TryPush(old(Snapshot()), item, wake)
      ensures ok == old(|queue| < maxSize && !shutdown)
    {
      if |queue| >= maxSize || shutdown { return false; }
      queue := queue + [item];
      pushed := pushed + [item];
      NotifyOneConsumer(wake);
      ok := true;
    }

    /** pop or popWithTimeout, from taking the lock (or waking with it); timedOut is set when the wait expired. */
    method PopLocked(t: Tid, wake: Tid, timedOut: bool) returns (r: PopOutcome<T>)
      modifies this
      ensures Snapshot() == if timedOut then GiveUp(old(Snapshot()), t, wake) else Pop(old(Snapshot()), t, wake)
      ensures r == if old(queue) != [] then Got(old(queue[0]))
                   else if old(shutdown) || timedOut then Nothing else Asleep
    {
      if queue == [] && !shutdown && !timedOut {
        consumersWaiting := consumersWaiting + {t};
        consumersNotified := consumersNotified - {t};
        return Asleep;
      }
      consumersWaiting := consumersWaiting - {t};
      consumersNotified := consumersNotified - {t};
      if queue == [] { return Nothing; }
      var item := queue[0];
      queue := queue[1..];
      popped := popped + [item];
      NotifyOneProducer(wake);
      r := Got(item);
    }

    method ShutdownLocked()
      modifies this
      ensures Snapshot() == Shutdown(old(Snapshot()))
    {
      shutdown := true;
      producersNotified := producersNotified + producersWaiting;
      producersWaiting := {};
      consumersNotified := consumersNotified + consumersWaiting;
      consumersWaiting := {};
    }
  }
}
