/**
 The staged engine as a step system: reader, raw queue, parsers, load balancers, fast paths, output thread, and
 the controlling thread that runs waitForCompletion() and stop(). Each step is one critical section or one
 action of one thread; threads interleave freely. A packet is identified by its position in the input.
 */
module Pipeline {
  import opened Routing

  /**
   What the stages need to know of a raw packet: whether it parses, the hash of its canonical tuple, and whether
   its fast path forwards it or drops it.
   */
  datatype Packet = Packet(parses: bool, hash: nat, forwarded: bool)

  datatype Config = Config(
    packets: seq<Packet>,
    parsers: nat,
    balancers: nat,
    fpsPerBalancer: nat,
    rawCapacity: nat,
    lbCapacity: nat,
    fpCapacity: nat,
    outCapacity: nat,
    fileOpen: bool)            // an output file is open (processFile), or none is (processSynthetic)
  {
    predicate Valid() {
      && 1 <= parsers && 1 <= balancers && 1 <= fpsPerBalancer
      && 1 <= rawCapacity && 1 <= lbCapacity && 1 <= fpCapacity && 1 <= outCapacity
    }

    function FastPaths(): nat {
      balancers * fpsPerBalancer
    }

    // Positions of the controlling thread: the statement it executes next.
    function ParserStopAt(i: nat): nat { 2 + 2 * i }            // worker i: running_ = false
    function ParserJoinAt(i: nat): nat { 3 + 2 * i }            // worker i: join
    function EngineStopAt(): nat { 2 + 2 * parsers }            // stop(): running_ = false
    function LbStopAt(l: nat): nat { EngineStopAt() + 1 + 3 * l }
    function LbShutAt(l: nat): nat { EngineStopAt() + 2 + 3 * l }
    function LbJoinAt(l: nat): nat { EngineStopAt() + 3 + 3 * l }
    function FpStopAt(j: nat): nat { EngineStopAt() + 1 + 3 * balancers + 3 * j }
    function FpShutAt(j: nat): nat { EngineStopAt() + 2 + 3 * balancers + 3 * j }
    function FpJoinAt(j: nat): nat { EngineStopAt() + 3 + 3 * balancers + 3 * j }
    function OutShutAt(): nat { EngineStopAt() + 1 + 3 * balancers + 3 * FastPaths() }
    function OutJoinAt(): nat { OutShutAt() + 1 }
    function DoneAt(): nat { OutShutAt() + 2 }
  }

  datatype State = State(
    next: nat,                       // packets the reader has pushed
    readerDone: bool,
    raw: seq<nat>,
    parserSlot: seq<seq<nat>>,       // at most one packet in flight per worker
    parserExited: seq<bool>,
    errors: seq<nat>,                // packets that did not parse
    lbQueue: seq<seq<nat>>,
    lbSlot: seq<seq<nat>>,
    lbExited: seq<bool>,
    lbLog: seq<seq<nat>>,            // every push a balancer's queue accepted, oldest first
    fpQueue: seq<seq<nat>>,
    fpSlot: seq<seq<nat>>,
    fpExited: seq<bool>,
    processed: seq<seq<nat>>,        // packets each fast path has processed, oldest first
    emitting: seq<seq<nat>>,         // forwarded packet a fast path is pushing to the output queue
    forwarded: seq<nat>,
    dropped: seq<nat>,
    out: seq<nat>,
    outSlot: seq<nat>,
    outExited: bool,
    written: seq<nat>,
    refused: seq<nat>,               // packets whose push met a shut-down queue
    pc: nat)                         // position of the controlling thread

  function Replicate<T>(n: nat, x: T): (s: seq<T>)
    ensures |s| == n && forall i :: 0 <= i < n ==> s[i] == x
  {
    seq(n, i => x)
  }

  /** Just after start(), with the reader thread launched. */
  function Start(c: Config): State {
    State(0, false, [],
          Replicate(c.parsers, []), Replicate(c.parsers, false), [],
          Replicate(c.balancers, []), Replicate(c.balancers, []), Replicate(c.balancers, false),
          Replicate(c.balancers, []),
          Replicate(c.FastPaths(), []), Replicate(c.FastPaths(), []), Replicate(c.FastPaths(), false),
          Replicate(c.FastPaths(), []), Replicate(c.FastPaths(), []), [], [],
          [], [], false, [], [], 0)
  }

  // Flags written only by the controlling thread are functions of its position.
  predicate RawShut(s: State) { s.pc > 1 }
  predicate ParserRunning(c: Config, s: State, i: nat) { s.pc <= c.ParserStopAt(i) }
  predicate EngineRunning(c: Config, s: State) { s.pc <= c.EngineStopAt() }
  predicate LbRunning(c: Config, s: State, l: nat) { s.pc <= c.LbStopAt(l) }
  predicate LbShut(c: Config, s: State, l: nat) { s.pc > c.LbShutAt(l) }
  predicate FpRunning(c: Config, s: State, j: nat) { s.pc <= c.FpStopAt(j) }
  predicate FpShut(c: Config, s: State, j: nat) { s.pc > c.FpShutAt(j) }
  predicate OutShut(c: Config, s: State) { s.pc > c.OutShutAt() }

  datatype Step =
    | ReaderPush | ReaderExit
    | ParserPop(i: nat) | ParserReject(i: nat) | ParserPush(i: nat) | ParserExit(i: nat)
    | LbPop(l: nat) | LbPush(l: nat) | LbExit(l: nat)
    | FpPop(j: nat) | FpProcess(j: nat) | FpEmit(j: nat) | FpExit(j: nat)
    | OutPop | OutWrite | OutExit
    | Control
    | TimeOut                        // a popWithTimeout expires on an empty queue and the loop goes round

  /** Sizes of the per-thread arrays, slots of at most one packet, and packet numbers in range. */
  predicate Shape(c: Config, s: State) {
    && c.Valid()
    && |s.parserSlot| == |s.parserExited| == c.parsers
    && |s.lbQueue| == |s.lbSlot| == |s.lbExited| == |s.lbLog| == c.balancers
    && |s.fpQueue| == |s.fpSlot| == |s.fpExited| == |s.processed| == |s.emitting| == c.FastPaths()
    && s.next <= |c.packets|
    && Slots(s.parserSlot, |c.packets|) && Slots(s.lbSlot, |c.packets|)
    && Slots(s.fpSlot, |c.packets|) && Slots(s.emitting, |c.packets|)
    && |s.outSlot| <= 1
  }

  /** Every slot is empty or holds one packet number below n. */
  predicate Slots(slots: seq<seq<nat>>, n: nat) {
    forall i :: 0 <= i < |slots| && slots[i] != [] ==> |slots[i]| == 1 && slots[i][0] < n
  }

  /** The fast path's verdict on a packet. */
  predicate Forwards(c: Config, p: nat) {
    p < |c.packets| && c.packets[p].forwarded
  }

  /** The balancer a packet's parser pushes to, and the fast path its balancer pushes to. */
  function Balancer(c: Config, p: nat): (l: nat)
    requires c.Valid() && p < |c.packets|
    ensures l < c.balancers
  {
    BalancerOf(c.packets[p].hash, c.balancers)
  }

  function FastPath(c: Config, p: nat): (j: nat)
    requires c.Valid() && p < |c.packets|
    ensures j < c.FastPaths()
  {
    LandsInOwnPool(c.packets[p].hash, c.balancers, c.fpsPerBalancer);
    FastPathOf(c.packets[p].hash, c.balancers, c.fpsPerBalancer)
  }

  /** The queue balancer l selects for a packet: one of its own pool. */
  function PoolTarget(c: Config, l: nat, p: nat): nat
    requires c.Valid() && p < |c.packets|
  {
    l * c.fpsPerBalancer + SlotOf(c.packets[p].hash, c.fpsPerBalancer)
  }

  lemma PoolTargetInRange(c: Config, l: nat, p: nat)
    requires c.Valid() && p < |c.packets| && l < c.balancers
    ensures PoolTarget(c, l, p) < c.FastPaths()
  {
    PoolIndex(l, SlotOf(c.packets[p].hash, c.fpsPerBalancer), c.balancers, c.fpsPerBalancer);
  }

  /** The join the controlling thread may be blocked in has returned. */
  predicate ControlReady(c: Config, s: State)
    requires Shape(c, s)
  {
    && (s.pc == 0 ==> s.readerDone)
    && (forall i :: 0 <= i < c.parsers && s.pc == c.ParserJoinAt(i) ==> s.parserExited[i])
    && (forall l :: 0 <= l < c.balancers && s.pc == c.LbJoinAt(l) ==> s.lbExited[l])
    && (forall j :: 0 <= j < c.FastPaths() && s.pc == c.FpJoinAt(j) ==> s.fpExited[j])
    && (s.pc == c.OutJoinAt() ==> s.outExited)
  }

  predicate Enabled(c: Config, s: State, step: Step)
    requires Shape(c, s)
  {
    match step
    case ReaderPush => !s.readerDone && s.next < |c.packets| && (|s.raw| < c.rawCapacity || RawShut(s))
    case ReaderExit => !s.readerDone && s.next == |c.packets|
    case ParserPop(i) => i < c.parsers && !s.parserExited[i] && s.parserSlot[i] == [] && s.raw != []
    case ParserReject(i) => i < c.parsers && s.parserSlot[i] != [] && !c.packets[s.parserSlot[i][0]].parses
    case ParserPush(i) =>
      && i < c.parsers && s.parserSlot[i] != [] && c.packets[s.parserSlot[i][0]].parses
      && var l := Balancer(c, s.parserSlot[i][0]);
         |s.lbQueue[l]| < c.lbCapacity || LbShut(c, s, l)
    case ParserExit(i) => i < c.parsers && !s.parserExited[i] && s.parserSlot[i] == [] && s.raw == []
      && !ParserRunning(c, s, i)
    case LbPop(l) => l < c.balancers && !s.lbExited[l] && s.lbSlot[l] == [] && s.lbQueue[l] != []
    case LbPush(l) =>
      && l < c.balancers && s.lbSlot[l] != []
      && var j := PoolTarget(c, l, s.lbSlot[l][0]);
         j < c.FastPaths() && (|s.fpQueue[j]| < c.fpCapacity || FpShut(c, s, j))
    case LbExit(l) => l < c.balancers && !s.lbExited[l] && s.lbSlot[l] == [] && s.lbQueue[l] == []
      && !LbRunning(c, s, l)
    case FpPop(j) => j < c.FastPaths() && !s.fpExited[j] && s.fpSlot[j] == [] && s.emitting[j] == []
      && s.fpQueue[j] != []
    case FpProcess(j) => j < c.FastPaths() && s.fpSlot[j] != [] && s.emitting[j] == []
    case FpEmit(j) => j < c.FastPaths() && s.emitting[j] != [] && (|s.out| < c.outCapacity || OutShut(c, s))
    case FpExit(j) =>
      && j < c.FastPaths() && !s.fpExited[j] && s.fpSlot[j] == [] && s.emitting[j] == []
      && s.fpQueue[j] == [] && !FpRunning(c, s, j)
    case OutPop => !s.outExited && s.outSlot == [] && s.out != []
    case OutWrite => s.outSlot != []
    case OutExit => !s.outExited && s.outSlot == [] && s.out == [] && !EngineRunning(c, s)
    case Control => s.pc < c.DoneAt() && ControlReady(c, s)
    case TimeOut => true
  }

  function Apply(c: Config, s: State, step: Step): State
    requires Shape(c, s) && Enabled(c, s, step)
  {
    match step
    case ReaderPush =>
      if RawShut(s) then s.(next := s.next + 1, refused := s.refused + [s.next])
      else s.(next := s.next + 1, raw := s.raw + [s.next])
    case ReaderExit => s.(readerDone := true)
    case ParserPop(i) => s.(raw := s.raw[1..], parserSlot := s.parserSlot[i := [s.raw[0]]])
    case ParserReject(i) => s.(parserSlot := s.parserSlot[i := []], errors := s.errors + s.parserSlot[i])
    case ParserPush(i) =>
      var l := Balancer(c, s.parserSlot[i][0]);
      var t := s.(parserSlot := s.parserSlot[i := []]);
      if LbShut(c, s, l) then t.(refused := s.refused + s.parserSlot[i])
      else t.(lbQueue := s.lbQueue[l := s.lbQueue[l] + s.parserSlot[i]],
        lbLog := s.lbLog[l := s.lbLog[l] + s.parserSlot[i]])
    case ParserExit(i) => s.(parserExited := s.parserExited[i := true])
    case LbPop(l) => s.(lbQueue := s.lbQueue[l := s.lbQueue[l][1..]], lbSlot := s.lbSlot[l := [s.lbQueue[l][0]]])
    case LbPush(l) =>
      var j := PoolTarget(c, l, s.lbSlot[l][0]);
      var t := s.(lbSlot := s.lbSlot[l := []]);
      if FpShut(c, s, j) then t.(refused := s.refused + s.lbSlot[l])
      else t.(fpQueue := s.fpQueue[j := s.fpQueue[j] + s.lbSlot[l]])
    case LbExit(l) => s.(lbExited := s.lbExited[l := true])
    case FpPop(j) => s.(fpQueue := s.fpQueue[j := s.fpQueue[j][1..]], fpSlot := s.fpSlot[j := [s.fpQueue[j][0]]])
    case FpProcess(j) =>
      var p := s.fpSlot[j];
      var t := s.(fpSlot := s.fpSlot[j := []], processed := s.processed[j := s.processed[j] + p]);
      if Forwards(c, p[0]) then
        t.(forwarded := s.forwarded + p, emitting := if c.fileOpen then s.emitting[j := p] else s.emitting)
      else t.(dropped := s.dropped + p)
    case FpEmit(j) =>
      var t := s.(emitting := s.emitting[j := []]);
      if OutShut(c, s) then t.(refused := s.refused + s.emitting[j])
      else t.(out := s.out + s.emitting[j])
    case FpExit(j) => s.(fpExited := s.fpExited[j := true])
    case OutPop => s.(out := s.out[1..], outSlot := [s.out[0]])
    case OutWrite => s.(outSlot := [], written := s.written + s.outSlot)
    case OutExit => s.(outExited := true)
    case Control => s.(pc := s.pc + 1)
    case TimeOut => s
  }

  /** One step of some thread. */
  ghost predicate StepTo(c: Config, s: State, step: Step, t: State) {
    Shape(c, s) && Enabled(c, s, step) && t == Apply(c, s, step)
  }

  /** A run: a list of states from Start, each reached from the one before by an enabled step. */
  ghost predicate IsRun(c: Config, states: seq<State>, steps: seq<Step>) {
    && c.Valid()
    && |states| == |steps| + 1
    && states[0] == Start(c)
    && forall k {:trigger steps[k]} :: 0 <= k < |steps| ==> StepTo(c, states[k], steps[k], states[k + 1])
  }
}
