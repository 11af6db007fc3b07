# DPI engine: verified model

A Dafny model of a multi-threaded deep packet inspection engine: bounded TCP stream reassembly with TLS server name
extraction, the staged pipeline of queues and worker threads, the flow table and its verdict machine, the wire decoders
with the encoders they undo, and the blocking rules with their text forms.

`dafny verify dfyconfig.toml` checks everything.

## How the files fit together

- **Reassembly.** `SequenceNumbers` and `Reassembly` hold the object: every method of `TcpReassembler` is proved equal to
  a function of its fields, written once over two arithmetics, 32-bit wrapping and unbounded. `ReassemblyMemory` accounts
  for the memory counter over whole runs, `ReassemblyPrefix` proves on unbounded offsets that the buffer is the maximal
  delivered prefix of the stream, and `ReassemblyWraparound` transfers that to the 32-bit object. `ClientHello` holds the
  two walkers over a ClientHello, `HelloWalkers` says exactly when they differ,
  `HelloFormat` on which byte strings they work, and `ReassemblyAnswers` when the object answers. `SniDelivery` is the resulting theorem
  about the object, `SegmentedHello` about the fast path around it, `HelloInRun` about a flow among others in a run of
  that fast path, and `CapturedHello` about one captured frame.
- **Pipeline.** `BoundedQueue` is the monitor with its two condition variables. `Pipeline` is the step system of reader,
  parsers, balancers, fast paths, output thread and controlling thread: queues, one in-flight slot per worker, and the
  ordered shutdown. `PipelineSafety`, `PipelineConservation`, `PipelineProgress`, `PipelineOwnership` and `PipelineOutput`
  prove theorems about all its runs. A packet's verdict is part of the configuration. Five more say exactly which configurations have a
  run that gets stuck: `PipelineDeals` what parsers can give the balancers, `PipelineBacklog` what the stages behind them
  can hold back at most, `PipelineGather` a run that does hold it back, `PipelineHeldBack` closed forms, `PipelineClog`
  the theorems. `Flows`, `Divisibility` and `Routing` cover canonical keys and the two-level hash routing.
- **Flow table and verdicts.** `FlowTable` and `FastPath` hold the two classes and their specifications, `Inspection` what
  becomes of HTTP, DNS and QUIC packets. `Verdicts`, `FlowLedger`, `FlowHistory` and `FlowMemory` hold the theorems over
  runs of packets and cleanups.
- **Decoders and text.** `Frames` and `FrameFormat`, `Dns`, `HttpHost`, `Rules` and `LetterCase`, `RulePersistence` and
  `RuleFile`, `Numerals`, `Ipv4Text`, `Ipv6Text`, over `Bytes` and `Text`.

## Where the code and its description differ

The model follows the code. What the proofs establish about the difference:

- The aggregate limit on a reassembler's bytes (include/tcp_reassembler.h:17) does not hold. Merging subtracts the whole
  merged segment from the counter although its bytes moved into the buffer (src/tcp_reassembler.cpp:212). The bound that
  holds is 2*max-1 and it is tight (`FootprintBound`, `FootprintBoundIsReached`). The limit is safe exactly for callers
  that deliver no more than max bytes after a `clear()`: for every larger total some run exceeds it (`LimitKeptIff`).
- `clear()` forgets the data but not the expected sequence number (src/tcp_reassembler.cpp:8-13): later segments are
  judged against the old position (`ClearedJudgesByOldPosition`).
- `stop()` clears `running_` first (src/dpi_engine.cpp:105), and the output thread may then leave with an empty queue
  (src/dpi_engine.cpp:354) while fast paths still produce. With an output file a fast path can then wait forever, exactly
  if the stages behind the parsers can hold back more packets to forward than the output queue takes (`ClogsIff`, and
  `OneParserClogsIff`, `ClogsIffOutgoingOverflows`, `ForwardingEngineClogsIff` for conditions on the configuration
  alone). An output queue as large as all those stages rules it out (`NeverClogsBySize`). Without an output file there is
  no deadlock (`NoDeadlock`).
- A ClientHello that is completed after the fast path gave the flow up escapes: after more than ten packets, in both
  directions together, the first packet with payload that classifies nothing makes the flow an unknown application
  (src/fast_path.cpp:208-211, `HelloIsCaughtIffInTime`).
- BLOCKED is not an absorbing state: a SYN|ACK or an RST moves the flow on (src/fast_path.cpp:145 and 152). The theorems
  about blocked and classified flows carry that exception; `StateKeptIffNotMovedOn` shows there is no other, and
  `BlockedFlowVerdict` when such a packet is forwarded.
- With L balancers of F fast paths only lcm(L, F) fast paths ever receive packets (`ReachableCount`).
- A plain rule d does not block the host "." + d, although *.d does (`WildcardAgreesWithPlainRule`).
- The address parser's comment promises 0 for malformed text (include/net_utils.h:28-29); missing octets and stray
  characters are passed over instead. `MalformedGivesZeroIff` says which texts keep the promise.
- The extension-header walk reports protocol 59 on truncation, where its comment says 0 (src/packet_parser.cpp:168):
  `WalkGivesUpIff`, `TruncationReportsNoNextHeader`.
- The DNS reader takes labels of up to 191 bytes and names without a terminator (`ReadsExactly`).

## Model

| member | source | states |
|---|---|---|
| SequenceNumbers.SeqDiffIsTrueDistance | include/tcp_reassembler.h:33-37 | the signed 32-bit difference of two wrapped offsets is their true difference whenever that lies in [-2^31, 2^31) |
| SequenceNumbers.WrapInjective | include/tcp_reassembler.h:33-37 | inside that window different offsets have different sequence numbers |
| SequenceNumbers.WrapAdvance | src/tcp_reassembler.cpp:57 | advancing a wrapped sequence number by a length is wrapping the advanced offset |
| Reassembly.LowerBound | src/tcp_reassembler.cpp:69-70 | the insertion point has every earlier segment strictly before the sequence number and the segment there not before it |
| Reassembly.TcpReassembler.Clear | src/tcp_reassembler.cpp:8-13 | the data, the counter and the failure are forgotten; the expected number stays, and so does whether it is known |
| Reassembly.TcpReassembler.MergeOutOfOrder | src/tcp_reassembler.cpp:184-219 | the erasing loop leaves the object in the state the recursive merge specifies, over which conservation and the prefix theorem are proved |
| Reassembly.TcpReassembler.StoreOutOfOrder | src/tcp_reassembler.cpp:63-86 | insertion, replacement of a shorter segment with the same start, or rejection of a duplicate; every field is stated |
| Reassembly.TcpReassembler.AppendInOrder | src/tcp_reassembler.cpp:54-61 | an in-order payload is appended and the gap behind it is merged |
| Reassembly.TcpReassembler.TryExtractSni | src/tcp_reassembler.cpp:15-182 | the whole call: new state of every field and the answer, with the early returns that skip the scan |
| ReassemblyMemory.CounterIsExact | src/tcp_reassembler.cpp:45-60 | after any calls the counter is the bytes appended directly since the last clear plus the sizes of all stored segments, never below zero, at most the limit |
| ReassemblyMemory.FootprintBound | src/tcp_reassembler.cpp:193-213 | buffered plus stored bytes never exceed 2*max-1 in any run |
| ReassemblyMemory.FootprintBoundIsReached | include/tcp_reassembler.h:17 | for every limit from 1 to 2^31-1 a run of five calls holds exactly 2*max-1 bytes, so the documented aggregate limit of max fails for every max above 1 |
| ReassemblyMemory.FootprintConserved | src/tcp_reassembler.cpp:45-86 | an accepted call adds its unseen bytes and loses exactly the overlaps discarded |
| ReassemblyMemory.LimitKeptIff | include/tcp_reassembler.h:17 | for every limit from 2 to 2^31-1: it is kept by every run that delivers n bytes since its last clear if and only if n is at most the limit |
| ReassemblyMemory.LimitKeptWithin | src/tcp_reassembler.cpp:45-60 | such a run does not fail either, and holds no more than it was delivered |
| ReassemblyMemory.HeldIsCounterPlusMerged | src/tcp_reassembler.cpp:193-213 | in every run the bytes held are the counter plus the bytes merged since the last clear, which the counter forgot |
| ReassemblyMemory.ClearedJudgesByOldPosition | src/tcp_reassembler.cpp:8-43 | after clear() a segment enters the buffer if and only if it reaches from the old expected position, or before it, to beyond it; a fresh object takes any segment |
| ReassemblyMemory.MergeConserves | src/tcp_reassembler.cpp:184-213 | merging moves bytes between list and buffer and loses exactly the overlapping ones |
| ReassemblyMemory.StoreConserves | src/tcp_reassembler.cpp:63-86 | storing adds the segment and loses exactly the segment it replaces, or all of a duplicate |
| ReassemblyAnswers.AnswersNewsOnly | src/tcp_reassembler.cpp:15-182 | a call that leaves buffer and stored segments as they were answers nothing, and every other call answers what the scan finds in the buffer it leaves |
| ReassemblyAnswers.PositionNeverGoesBack | src/tcp_reassembler.cpp:8-61 | on offsets: once known, the expected position is never forgotten and never goes back, and it moves by what the buffer gains |
| ReassemblyAnswers.FirstAndFailed | src/tcp_reassembler.cpp:15-29 | the first segment fixes the position; a failed object takes and answers nothing until it is cleared |
| ReassemblyPrefix.RunRefines | src/tcp_reassembler.cpp:15-86 | on unbounded offsets every run of slices of one stream keeps the object consistent with what was delivered |
| ReassemblyPrefix.BufferIsMaximalPrefix | src/tcp_reassembler.cpp:15-86 | a live object holds exactly the stream from the base to the first undelivered byte, the rest being stored strictly sorted beyond it |
| ReassemblyPrefix.ArrivalOrderIrrelevant | src/tcp_reassembler.cpp:63-86 | on unbounded offsets two live runs with the same base and the same delivered bytes end with the same buffer and the same expected offset |
| ReassemblyWraparound.WrappedArrivalOrderIrrelevant | src/tcp_reassembler.cpp:15-86 | the same for the 32-bit object, whatever the initial sequence number |
| ReassemblyWraparound.LowerBoundAgrees | include/tcp_reassembler.h:49-51 | on wrapped numbers in the window the sorted search finds the place it finds on offsets |
| ReassemblyWraparound.MergeAgrees | src/tcp_reassembler.cpp:184-219 | the merge loop on 32-bit numbers is the merge loop on offsets, wrapped |
| ReassemblyWraparound.DeliverAgrees | src/tcp_reassembler.cpp:15-86 | one call on 32-bit numbers gives the wrapped state and the same answer as the call on offsets |
| ReassemblyWraparound.WraparoundIsInvisible | src/tcp_reassembler.cpp:26-61 | whole runs agree for every initial sequence number, as long as arrivals lie within 2^31 of the expected offset |
| ReassemblyWraparound.ShortStreamsAreNear | include/tcp_reassembler.h:33-37 | on a stream shorter than 2^31 bytes that window condition holds by itself |
| ReassemblyWraparound.WrappedBufferIsMaximalPrefix | src/tcp_reassembler.cpp:15-86 | the maximal-prefix theorem for the 32-bit object, the stored list strictly sorted beyond the prefix as 32-bit comparison sees it |
| ClientHello.ExtractSni | src/sni_extractor.cpp:38-116 | the moving-offset extractor computes the specified extraction; no read leaves the payload |
| ClientHello.ScanExtensionLoop | src/tcp_reassembler.cpp:149-174 | the scan's pointer loop computes the specified search |
| ClientHello.ScanForSni | src/tcp_reassembler.cpp:102-178 | the scan with its unsigned count of remaining bytes computes the specified outcome, an underflow of that count being the outcome OutOfBounds |
| ClientHello.ScanFollowsExtract | src/tcp_reassembler.cpp:102-178 | whenever the extractor names a host on some bytes, the scan of the same bytes stays in bounds and names the same host |
| ClientHello.RecordLayout | generate_test_pcap.py:79-115 | every length, type and name of the generated ClientHello sits where the decoders read it |
| ClientHello.ExtractUndoesRecord | src/sni_extractor.cpp:38-116 | extraction of a generated record, whatever follows it, is the host, for every host whose length fields fit |
| HelloWalkers.ExtractByExtensions | src/sni_extractor.cpp:79-113 | the extractor returns the first server_name extension's host, for better or worse |
| HelloWalkers.ScanByExtensions | src/tcp_reassembler.cpp:144-174 | on a hello that passes the extractor's length checks the scan stays in bounds and returns the first well-formed server_name |
| HelloWalkers.WalkersDifferIff | src/sni_extractor.cpp:89-113 | on such a hello the two walkers differ exactly if the first server_name extension is malformed and a later one is not |
| HelloFormat.ExtensionListIff | src/sni_extractor.cpp:22-84 | a list of extensions is found in exactly the byte strings that hold, in a handshake record, the fields of a hello with any session id, cipher suites, compression methods and extension block; the list is that of the block |
| HelloFormat.ListUndoesEncode | src/sni_extractor.cpp:89-113 | any list of extensions is read back from its encoding |
| HelloFormat.WalkersOnHello | src/sni_extractor.cpp:38-116 | on every such hello the extractor names the first server_name and the scan the first well-formed one |
| HelloFormat.NothingElseIsExtracted | src/sni_extractor.cpp:38-116 | the extractor names a host only in such a byte string |
| HelloFormat.HostNameIff | src/sni_extractor.cpp:98-111 | a server_name body names a host exactly if it has the form of section 3 of RFC 6066, the length of the list apart |
| HelloFormat.ScanReads | src/tcp_reassembler.cpp:102-178 | behind whole vectors the scan takes the first well-formed server_name of as much of the extension block as is there |
| HelloFormat.ScanCutInCiphers | src/tcp_reassembler.cpp:129-134 | data cut off inside the cipher suites: the count of remaining bytes wraps exactly if a byte of them is there |
| HelloFormat.ScanCutInCompression | src/tcp_reassembler.cpp:135-139 | the same for the compression methods |
| HelloFormat.ScanCutInSession | src/tcp_reassembler.cpp:123-127 | data cut off inside the session id makes the count wrap |
| HelloFormat.ScanCutBeforeLength | src/tcp_reassembler.cpp:123-146 | data cut off before or in a length makes the scan give up in time |
| SniDelivery.NeverFails | src/tcp_reassembler.cpp:45-51 | deliveries that total at most the limit never make the object fail |
| SniDelivery.BufferMeasuresCompleteness | src/tcp_reassembler.cpp:54-61 | the buffer has reached a length exactly when the calls together carried every byte up to it |
| SniDelivery.AnswerOnOffsets | src/tcp_reassembler.cpp:88-182 | what every call of a run answers, on unbounded offsets |
| SniDelivery.SniIsDelivered | src/tcp_reassembler.cpp:15-182 | for every cutting, reordering, duplication and overlap within the limit, and any initial sequence number: no failure, no answer before the record is complete, exactly the host on the completing call |
| SegmentedHello.HelloIsCaught | src/fast_path.cpp:68-139 | in the fast path, between any packets of the server: packets are forwarded while the hello is incomplete and no packet beyond the tenth met inspection in vain; the packet that completes it names the host and is dropped exactly if a rule blocks host or application |
| SegmentedHello.HelloIsCaughtIffInTime | src/fast_path.cpp:193-211 | the completing packet is recognised if and only if no earlier packet with payload came after the tenth; otherwise the flow already counts as unknown and the hello escapes |
| SegmentedHello.TableFollowsEntry | src/fast_path.cpp:78-96 | on the tracker's table processPacket does to the flow's entry and verdict, for packets of either direction, exactly what the per-flow theorems speak about, creation included |
| SegmentedHello.RulesDecideHello | src/fast_path.cpp:119-133 | with the rule manager's domain rules plugged in: the completing packet is dropped exactly if the application is blocked or the host's labels end with those of a rule, or, when it comes too late, if unknown applications are blocked |
| SegmentedHello.InspectsSegment | src/fast_path.cpp:156-212 | a TCP packet with payload that is not HTTP is classified by the reassembler's answer, else given up after ten packets, else left open; the server's packets do not reach the reassembler |
| HelloInRun.EntryInRun | src/fast_path.cpp:68-139 | in a run with packets of other flows and cleanups in between, a flow's entry is what its own packets make of it, as long as the table keeps it |
| HelloInRun.HelloInRunIsCaughtIffInTime | src/fast_path.cpp:193-211 | the theorem about the completing packet for such a run, with the verdict processPacket reaches and the entry it leaves in the table |
| HelloInRun.RulesDecideHelloInRun | src/fast_path.cpp:119-133 | and with the rule manager's domain rules plugged in, when that verdict is DROP |
| CapturedHello.FrameNamesHost | src/parser_pool.cpp:122-141 | parser, job builder, extractor and scan composed return the host the traffic generator was given |
| HttpHost.ExtractHost | src/sni_extractor.cpp:142-188 | the search with its three inner loops computes the specified extraction, in bounds |
| HttpHost.ExtractsFirstHost | src/sni_extractor.cpp:142-188 | the host is that of the first Host header with a value, among the lines behind the request line |
| HttpHost.ExtractUndoesRequest | src/sni_extractor.cpp:128-188 | from a request with any other headers the host is extracted, whatever the letter case of the field name, the blanks around the value and the port |
| HttpHost.HostFieldIff | src/sni_extractor.cpp:150-158 | the field name is host in any letter case, followed by a colon |
| BoundedQueue.ThreadSafeQueue.PushLocked | include/thread_safe_queue.h:22-39 | push under the lock: waits, is refused after shutdown, or appends and wakes one consumer |
| BoundedQueue.ThreadSafeQueue.TryPushLocked | include/thread_safe_queue.h:42-50 | tryPush under the lock |
| BoundedQueue.ThreadSafeQueue.PopLocked | include/thread_safe_queue.h:53-87 | pop and popWithTimeout under the lock: waits, times out, or takes the head and wakes one producer |
| BoundedQueue.ThreadSafeQueue.ShutdownLocked | include/thread_safe_queue.h:102-107 | shutdown wakes everybody and keeps the items |
| BoundedQueue.StepKeepsInvariant | include/thread_safe_queue.h:22-107 | every step by any thread, spurious wakeups and timeouts included, keeps the wakeup invariant |
| BoundedQueue.NoLostWakeup | include/thread_safe_queue.h:22-107 | in every run an un-notified waiter next to a free slot (or item) means at least that many notified threads are still to run; size stays within capacity; pops are a FIFO prefix of accepted pushes |
| BoundedQueue.DrainAfterShutdown | include/thread_safe_queue.h:53-87 | after shutdown, however the threads interleave, pops hand out exactly the items left, in order, nothing is added and nobody starts to wait |
| BoundedQueue.QueueHoldsAcceptedOffers | include/thread_safe_queue.h:22-87 | in every run what was handed out and what is in the queue are the offers that met room and no shutdown, in order |
| BoundedQueue.StepAcceptsAndTakes | include/thread_safe_queue.h:22-107 | an offer is accepted exactly if there is room and no shutdown; a pop takes the head exactly if there is one |
| BoundedQueue.SleepsIff | include/thread_safe_queue.h:22-87 | a push sleeps exactly on a full queue, a pop exactly on an empty one before its time is up, neither after shutdown |
| BoundedQueue.OthersKeepTheirPlace | include/thread_safe_queue.h:22-107 | a step of one thread neither ends the call of another nor puts it back to sleep, and a shutdown wakes every sleeper |
| Flows.CanonicalForgetsDirection | src/types.cpp:54-59 | the canonical key is idempotent and the same for a key and its reverse |
| Flows.SameCanonicalIffSameFlow | src/types.cpp:54-59 | two keys have one canonical form exactly if they are the same flow in either direction, IPv4 or IPv6 |
| Flows.SameFlowSameTuple | src/parser_pool.cpp:103-115 | packets of one flow have one canonical five-tuple, so one hash whatever the hash function |
| Flows.SameCanonicalTupleIff | include/types.h:36-45 | two five-tuples have one canonical form exactly if they are equal or each other's reverse |
| Routing.BuildPools | src/load_balancer.cpp:107-125 | the constructor's loops give balancer l exactly the queues l*F to (l+1)*F-1, in order |
| Routing.LandsInOwnPool | src/load_balancer.cpp:84-91 | a hash lands in the pool of the balancer it chose, and the fast-path index determines both choices |
| Routing.ReachableIffCongruent | src/load_balancer.cpp:143-149 | fast path (l, i) is reachable by some hash if and only if l and i agree modulo gcd(L, F) |
| Routing.ReachableCount | src/load_balancer.cpp:84-91 | exactly lcm(L, F) fast paths are reachable; all of them if and only if L and F are coprime |
| Routing.FlowStaysOnOneFastPath | src/load_balancer.cpp:143-149 | both directions of a flow reach the same fast path |
| PipelineSafety.StepSafe | src/dpi_engine.cpp:102-149 | every step of every thread keeps the shutdown order, the routing and the queue bounds |
| PipelineSafety.RunSafe | src/dpi_engine.cpp:102-149 | in every interleaving no push meets a shut-down queue, each queue holds only packets routed to it, and no queue exceeds its capacity |
| PipelineConservation.StepPlaces | src/parser_pool.cpp:43-93 | a step moves packets between places; only the reader adds one |
| PipelineConservation.ExactlyOnePlace | src/parser_pool.cpp:43-93 | every packet read is in exactly one queue, slot, error log or processed log; unread ones are nowhere |
| PipelineConservation.ForwardedIsAccounted | src/dpi_engine.cpp:353-379 | forwarded packets are always exactly those written, queued, or in flight, when an output file is open |
| PipelineConservation.ProcessedAreExactlyParsed | src/fast_path.cpp:43-66 | once the fast paths are joined, processed packets are exactly those that parse, each once, and errors exactly the others |
| PipelineOutput.OutputInOrder | src/dpi_engine.cpp:353-379 | with a file open, in every run and for every fast path: its packets written, in the output thread's hands, in the output queue and being pushed, in that order, are the forwarded ones of those it processed, in that order |
| PipelineOutput.FlowsWrittenInOrder | src/dpi_engine.cpp:353-361 | each flow's packets are written in the order its fast path processed them |
| PipelineOutput.OneParserWritesInReaderOrder | src/dpi_engine.cpp:353-361 | with one parser the packets of every fast path are written in the order the reader read them |
| PipelineProgress.StepDecreases | src/load_balancer.cpp:50-82 | every step but a timeout lowers the measure of remaining hops and living threads |
| PipelineProgress.MovesAreBounded | src/dpi_engine.cpp:220-256 | no run makes more non-timeout moves than its initial measure |
| PipelineProgress.MoveExists | src/fast_path.cpp:33-66 | a safe unfinished state that is not clogged has a move that is not a timeout |
| PipelineProgress.StuckIffClogged | src/dpi_engine.cpp:353-379 | a reachable unfinished state has a move unless the output thread has left while a fast path waits on the full output queue, and then it stays unfinished for good |
| PipelineProgress.CloggedForever | src/dpi_engine.cpp:353-367 | once that happens it stays so in every continuation |
| PipelineProgress.NeverClogs | src/dpi_engine.cpp:369-379 | that cannot happen without an output file, or if the output queue can hold every packet that parses and is forwarded |
| PipelineProgress.NoDeadlock | src/dpi_engine.cpp:220-256 | on the synthetic path, and with an output queue that can hold every packet that parses and is forwarded, every reachable unfinished state has a move that is not a timeout |
| PipelineProgress.FinishedIsDrained | src/dpi_engine.cpp:102-149 | a finished run has emptied every queue and slot before the output and stopped every thread |
| PipelineDeals.RunDeals | src/parser_pool.cpp:43-93 | what the balancers were given and the parsers hold is, at every moment of every run, a deal of the input: each parser takes the next packet and hands it on when it likes |
| PipelineDeals.OneParserDealsInOrder | src/parser_pool.cpp:43-93 | with one parser there is one such deal, the reader's order |
| PipelineBacklog.BacklogIsHeld | src/load_balancer.cpp:50-82 | in every reachable state the packets to forward that a fast path emits, holds or is still to receive are at most those among the last of its lane: those in the last lbCapacity + 1 packets given to its balancer, and of the ones before, the last fpCapacity + 1 of its own |
| PipelineBacklog.RunPressure | src/dpi_engine.cpp:353-367 | once the output thread has left, what is in the output queue and what is still to enter it is at most what the stages behind the parsers can hold back of what the balancers were given |
| PipelineGather.Gather | src/load_balancer.cpp:50-82 | for every deal some run holds back as much as that in every lane: balancer queues, balancer hands, fast-path queues and fast-path hands are filled in this order |
| PipelineClog.ClogsIff | src/dpi_engine.cpp:102-149 | a configuration has a run that gets stuck if and only if an output file is open and some deal of the input lets the stages behind the parsers hold back more packets to forward than the output queue takes |
| PipelineClog.OneParserClogsIff | src/dpi_engine.cpp:353-379 | with one parser the reader's order is the deal, so the configuration alone decides, whatever the number of packets |
| PipelineClog.ClogsIfHeldBack | src/dpi_engine.cpp:353-379 | one half of it, by construction of the run |
| PipelineClog.ClogsIffOutgoingOverflows | src/dpi_engine.cpp:369-379 | for any number of parsers, if each balancer's queue and hands can hold its share: exactly if an output file is open and more packets parse and are forwarded than the output queue takes |
| PipelineClog.NeverClogsBySize | src/dpi_engine.cpp:16-17 | whatever the input, an output queue with room for all that balancers and fast paths can hold rules the clog out |
| PipelineClog.OneLaneClogsIff | src/load_balancer.cpp:18 | with one parser, balancer and fast path: exactly if, of the last lbCapacity + fpCapacity + 2 packets that parse, more are forwarded than the output queue takes |
| PipelineClog.EngineClogsIff | src/dpi_engine.cpp:16-17 | with the engine's own sizes (10000 before balancers and fast paths, the configured size for raw and output queue) and one parser: exactly if more can be held back of the reader's order than the queue size |
| PipelineClog.ForwardingEngineClogsIff | include/dpi_engine.h:67 | a one-lane engine writing a file and forwarding every packet can get stuck exactly if the packets outnumber its queue size and the queue size is below 20002; so the default of 10000 gets stuck from 10001 packets on |
| PipelineOwnership.ProcessedInArrivalOrder | src/load_balancer.cpp:50-91 | what a fast path processed is at any time a prefix of what entered its balancer for it |
| PipelineOwnership.FlowHasOneFastPath | src/load_balancer.cpp:143-149 | packets of one flow are processed by one fast path only |
| PipelineOwnership.TrackersAreDisjoint | src/connection_tracker.cpp:16-48 | the canonical key sets met by different fast paths are disjoint in every run |
| PipelineOwnership.FlowsProcessedInOrder | src/load_balancer.cpp:50-82 | each flow is processed in the order it entered its balancer's queue |
| PipelineOwnership.OneParserKeepsReaderOrder | src/parser_pool.cpp:43-93 | with one parser every fast path processes in reader order |
| FlowTable.EvictionRemovesLeastRecent | src/connection_tracker.cpp:167-176 | eviction removes exactly one entry, none seen less recently, and keeps the others unchanged |
| FlowTable.CreationRespectsLimit | src/connection_tracker.cpp:16-48 | creating an entry never takes the table beyond its limit (of at least one) |
| FlowTable.Oldest | src/connection_tracker.cpp:167-176 | the entry chosen is in the table and no entry was seen earlier |
| FlowTable.OldestIsFirst | src/connection_tracker.cpp:167-176 | of several entries seen least recently it is the first in iteration order |
| FlowTable.ClassifiedAs | src/connection_tracker.cpp:75-88 | classification reaches CLASSIFIED, keeps key and counts, and keeps the application of an already classified flow |
| FlowTable.ConnectionTracker.EvictOldest | src/connection_tracker.cpp:167-176 | the loop over the table erases the specified entry and nothing else |
| FlowTable.ConnectionTracker.GetOrCreateConnection | src/connection_tracker.cpp:16-48 | lookup, eviction when full, creation with direction flag, and the count of flows seen |
| FlowTable.ConnectionTracker.UpdateConnection | src/connection_tracker.cpp:63-73 | time and the counters of one direction are updated, all other entries kept |
| FlowTable.ConnectionTracker.ClassifyConnection | src/connection_tracker.cpp:75-88 | first classification wins the application; later names overwrite only by non-empty names |
| FlowTable.ConnectionTracker.BlockConnection | src/connection_tracker.cpp:90-95 | BLOCKED and DROP are set together and counted |
| FlowTable.ConnectionTracker.CloseConnection | src/connection_tracker.cpp:97-102 | the flow is closed if it is tracked |
| FlowTable.ConnectionTracker.CleanupStale | src/connection_tracker.cpp:108-138 | exactly the stale entries are erased, and their number is returned |
| FastPath.FastPathProcessor.UpdateTcpState | src/fast_path.cpp:141-154 | the TCP flag machine on the flow's entry |
| FastPath.FastPathProcessor.InspectPayload | src/fast_path.cpp:156-212 | the extractors by protocol and direction, then giving up after ten packets |
| FastPath.FastPathProcessor.ReassembleClientHello | src/fast_path.cpp:193-202 | the reassembler's new state and the classification by its answer |
| FastPath.FastPathProcessor.DecideLocked | src/fast_path.cpp:98-139 | from the BLOCKED test to the verdict, with both counters |
| FastPath.FastPathProcessor.ProcessPacket | src/fast_path.cpp:68-139 | the whole of processPacket: table, tracker counters, statistics and verdict |
| FastPath.FlagsAreBits | include/packet_parser.h:158-165 | the four TCP flags are the bits 0x01, 0x02, 0x04 and 0x10 |
| Inspection.HttpIsDecided | src/fast_path.cpp:182-192 | a client's packet with payload that is HTTP by port or method, on an undecided flow with no blocked address, leaves the entry with the host it names and that host's application, or as HTTP; it is dropped exactly if a rule blocks application or host |
| Inspection.DnsIsDecided | src/fast_path.cpp:163-170 | a query on port 53, in either direction, leaves the entry as DNS with the name asked for, and is dropped exactly if DNS or the name is blocked |
| Inspection.QuicIsDecided | src/fast_path.cpp:171-181 | a QUIC Initial leaves the entry with the name in it and that name's application, or as QUIC, and is dropped exactly if a rule blocks either |
| Inspection.SilenceIsDecided | src/fast_path.cpp:208-211 | a packet no extractor finds anything in is forwarded and leaves the flow undecided until ten packets came before, and then makes it an unknown application |
| Inspection.FirstSegmentFits | include/tcp_reassembler.h:17 | the reassembler a flow gets fails on a first segment of more than 16384 bytes and on no other |
| Inspection.RulesDecideHttp | src/fast_path.cpp:119-133 | with the rule manager's domain rules plugged in: dropped exactly if the application is blocked or the host's labels end with those of a rule |
| Inspection.RulesDecideHttpRequest | src/fast_path.cpp:182-192 | and with the Host header search plugged in, for every request for a host |
| Inspection.RulesDecideDnsQuery | src/fast_path.cpp:163-170 | the same for every generated DNS query, with the query extractor plugged in |
| Verdicts.EveryPacketHasOneVerdict | src/fast_path.cpp:214-224 | after every run processed = packets = forwarded + dropped, and BLOCKED entries carry DROP |
| Verdicts.BlockedAddressIsDropped | src/fast_path.cpp:98-112 | a packet with a blocked address at either end is dropped in every connection state |
| Verdicts.StateKeptIffNotMovedOn | src/fast_path.cpp:141-154 | exactly SYN|ACK after a SYN, and RST, take an entry out of its state |
| Verdicts.SynAckEscapesBlock | src/fast_path.cpp:145 | BLOCKED is not absorbing: a bare SYN|ACK on a blocked flow whose SYN was seen is forwarded |
| Verdicts.ResetEscapesBlock | src/fast_path.cpp:151-153 | an RST on a blocked flow is forwarded unless an address is blocked, and leaves the flow closed |
| Verdicts.BlockedFlowVerdict | src/fast_path.cpp:98-139 | a packet of a blocked flow is forwarded if and only if it is one of those two, no address is blocked, and, if it reopens the flow and settles what the flow is, the rules permit that |
| Verdicts.InspectionSettlesIff | src/fast_path.cpp:156-212 | inspection classifies an unclassified TCP flow exactly on a packet with payload that is the client's and HTTP or completes a name, or that comes after ten others |
| Verdicts.AddressRulesDecide | src/fast_path.cpp:98-112 | in every run under address rules alone a packet is dropped exactly if one of its own addresses is blocked, whatever came before it |
| Verdicts.BlockedFlowDropsEverything | src/fast_path.cpp:98-102 | a tracked blocked flow drops every packet of a run until one of those two |
| Verdicts.ForwardedMeansPermitted | src/fast_path.cpp:119-133 | a packet forwarded on a classified flow leaves it permitted by the application and domain rules |
| Verdicts.ClassifiedFlowKeepsVerdict | src/fast_path.cpp:119-137 | under fixed rules a surviving classified flow keeps application, domain and the verdict FORWARD, with the same exception |
| FlowLedger.FromClientIffCreatorsKey | src/fast_path.cpp:87-89 | the direction test holds exactly for packets whose key is the creating packet's key |
| FlowLedger.FlowTableBalances | src/connection_tracker.cpp:16-48 | in every run: keys canonical and their entries' own, size within the limit, total seen = live + removed, packets in and out counted per direction, live plus removed counts = packets processed |
| FlowLedger.CleanupBalances | src/connection_tracker.cpp:108-138 | cleanup keeps every surviving entry's books, and moves the removed entries and their packets to the removed columns |
| FlowHistory.EntryTellsHistory | src/connection_tracker.cpp:63-73 | in every run an entry's first and last time, packets and bytes by direction, direction flag and seen SYN, SYN|ACK and FIN are those of the flow's packets since the entry was made |
| FlowHistory.CleanupKeepsIff | src/connection_tracker.cpp:108-138 | in every run a cleanup keeps an entry exactly if it is not closed and less than 301 seconds have passed since its flow's last packet, or 61 for TCP neither established nor classified, or 121 for what is not TCP |
| FlowHistory.EvictsLongestSilent | src/connection_tracker.cpp:16-48 | in every run a new flow that finds the table full takes the place of one whose last packet came first of all |
| FlowHistory.CountersCount | src/connection_tracker.cpp:75-95 | in every run the tracker's two counters are the packets that classified their flow and those that blocked it |
| FlowMemory.NamesStay | src/connection_tracker.cpp:75-88 | as long as an entry stays in the table it keeps a name of every kind it once had |
| FlowMemory.EntryRemembers | src/connection_tracker.cpp:90-95 | in every run an entry's action is DROP exactly if its flow was blocked at some time, and until something is decided it has no application and no name |
| FlowMemory.UndecidedState | src/fast_path.cpp:141-154 | in every run the state of an undecided flow is given by its packets: the last SYN|ACK after a SYN, or plain reset, decides |
| Frames.WalkIpv6ExtHeaders | src/packet_parser.cpp:170-249 | the bounded loop computes the specified walk and never moves past the data, on any input |
| Frames.WalkUndoesChain | src/packet_parser.cpp:170-249 | any chain of at most ten well-formed extension headers is walked to the right protocol and offset |
| Frames.WalkGivesUpIff | src/packet_parser.cpp:192-242 | the walk gives up if and only if, behind fewer whole headers than allowed, comes one that is cut off or belongs to a later fragment, and it then reports protocol 59 |
| Frames.TruncationReportsNoNextHeader | src/packet_parser.cpp:168 | every frame that ends with an IPv6 header announcing an extension header: the comment promises protocol 0, the parser reports 59 and accepts |
| Frames.ParsePacket | src/packet_parser.cpp:18-59 | the dispatcher computes the specified parse on every byte string |
| Frames.ParseProgress | src/packet_parser.cpp:18-59 | an accepted frame's payload offset lies between the Ethernet header and the end of the data |
| Frames.ParseUndoesTcpFrame | generate_test_pcap.py:34-70 | parsing a generated TCP frame recovers addresses, ports, sequence and acknowledgement number, flags and payload |
| Frames.ParseUndoesUdpFrame | generate_test_pcap.py:73-76 | the same for a generated UDP frame |
| Frames.ParseUndoesIpv6Header | src/packet_parser.cpp:113-152 | behind an IPv6 header and an allowed chain the parser has the addresses, the protocol and the transport offset |
| Frames.ParseUndoesIpv6TcpFrame | src/packet_parser.cpp:254-288 | a TCP frame behind such a chain is parsed back field by field, payload included |
| Frames.JobFindsParsersPayload | src/parser_pool.cpp:122-141 | for every accepted IPv4 TCP or UDP frame the job builder's independent offsets give the parser's payload |
| FrameFormat.AcceptedIff | src/packet_parser.cpp:18-59 | exactly which frames are accepted, on the bytes: IPv4 and TCP headers of 5 to 15 words, UDP lengths from 8 to what is there, ICMP headers of 8 bytes, IPv6 by where its walk ends, and every other Ethernet type |
| FrameFormat.ParseUndoesTcpOptions | src/packet_parser.cpp:254-288 | a TCP frame with options of any whole number of words in either header is parsed back field by field, payload included |
| FrameFormat.ParseUndoesUdpOptions | src/packet_parser.cpp:293-321 | the same for UDP behind IPv4 options, with any length field that fits |
| FrameFormat.GivesUpAt | src/packet_parser.cpp:192-242 | where a walk that gives up stops: before a header that is cut off, behind a fragment header of a later fragment |
| FrameFormat.AddressIsItsText | include/net_utils.h:33-65 | the address a frame is parsed to is the one a rule's dotted text stands for |
| Dns.ReadRound | src/sni_extractor.cpp:208-236 | one round of the loop: it fails as specified, or goes on with one more jump or a larger offset |
| Dns.ReadDomainName | src/sni_extractor.cpp:200-240 | the reader's loop computes the specified name, success flag and offset, and terminates by (jumps left, bytes left) |
| Dns.ReadsEveryName | src/sni_extractor.cpp:200-240 | every non-empty name of section 4.1.4 of RFC 1035 with at most ten pointers, each to offset 12 or later, is read as its labels joined by dots |
| Dns.OnlyReadsSpelledNames | src/sni_extractor.cpp:200-240 | a name that is read was spelled there, but for a possibly missing terminator and labels of up to 191 bytes |
| Dns.ReadsExactly | src/sni_extractor.cpp:200-240 | the reader succeeds with a name if and only if the data spells it with at most ten pointers |
| Dns.ReaderStops | src/sni_extractor.cpp:216-239 | the offset handed back is where the labels end, or behind the first pointer |
| Dns.ExtractsIff | src/sni_extractor.cpp:192-259 | a query is extracted exactly from messages with a whole header, a clear response bit, a question, and a non-empty name at offset 12 |
| Dns.CreateDnsQuery | generate_test_pcap.py:122-137 | the encoder's loop writes header, length-prefixed labels, terminator, type and class |
| Dns.ExtractUndoesQuery | src/sni_extractor.cpp:242-259 | extracting a generated query gives back identifier, flags, counts and the dotted name, for all lists of dot-free labels of 1 to 191 bytes |
| Rules.RuleManager.BlockDomainRule | src/rule_manager.cpp:99-129 | a normalised rule goes to the patterns if it has a star, else to the set |
| Rules.RuleManager.UnblockDomainRule | src/rule_manager.cpp:131-168 | the first equal pattern, or the plain rule, is removed |
| Rules.RuleManager.IsDomainBlocked | src/rule_manager.cpp:202-291 | the three searches, in any iteration order, compute the specified decision |
| Rules.RuleManager.Decide | src/rule_manager.cpp:335-374 | shouldBlock: the first applicable reason in the order address, port, application, domain |
| Rules.BlockedIffUnderSomeRule | src/rule_manager.cpp:202-291 | with no precondition: a host is blocked exactly if its label list ends with that of a rule, a plain rule d sparing the host "." + d |
| Rules.LabelsAloneDecide | src/rule_manager.cpp:249-265 | label suffixes decide a host except exactly when it is a dot followed by a plain rule and nothing else blocks it |
| Rules.OneRuleDecides | src/rule_manager.cpp:99-129 | what a single rule decides, whatever letter case or trailing dot |
| Rules.BlockAddsOneRule | src/rule_manager.cpp:99-129 | blocking adds exactly the hosts the new rule blocks alone |
| Rules.WildcardAgreesWithPlainRule | src/rule_manager.cpp:170-204 | rule d and rule *.d decide a host alike if and only if it is not "." + d |
| Rules.BareWildcardBlocksNothing | src/rule_manager.cpp:112-125 | the rule "*." loses its dot and blocks no host, while the empty rule blocks hosts ending in a dot |
| Rules.HostSpellingDoesNotMatter | src/rule_manager.cpp:202-226 | letter case and one trailing dot of the host do not change the decision |
| LetterCase.CaseDoesNotMatter | src/rule_manager.cpp:99-112 | texts that are equal letter for letter up to case, by the 26 pairs of letters, are one rule when blocking and unblocking, and one host when deciding |
| LetterCase.NormalFormIff | src/rule_manager.cpp:208-226 | the normal form of a text is the one without capitals that is, up to case, the text without one trailing dot |
| LetterCase.RuleBlocksItsTextInAnyCase | src/rule_manager.cpp:236-265 | a plain rule blocks its own text and every subdomain of it, in any letter case |
| Rules.UnblockUndoesBlock | src/rule_manager.cpp:131-168 | unblocking undoes blocking: for a pattern always, for a plain rule exactly if it was not there before |
| Rules.ApexesOfOneHostAreNested | src/types.cpp:144-151 | if a host lies under two apexes, one of them lies under the other |
| Rules.SubdomainsAreBlocked | src/rule_manager.cpp:236-265 | what lies under a blocked host is blocked too, unless its name starts with a dot |
| Rules.IsDomainOrSubdomainIsUnder | src/types.cpp:144-151 | the application table's test is the label-suffix relation on non-empty names |
| Rules.AllowedIffNoRuleApplies | src/rule_manager.cpp:335-374 | shouldBlock returns nothing exactly if no rule of any kind applies |
| Rules.ReasonGivenIff | src/rule_manager.cpp:335-374 | the reason given is the first that applies, in the order address, port, application, domain |
| Ipv4Text.ParseIpv4Address | include/net_utils.h:33-50 | the parsing loop computes the specified word, and None exactly where its shift or its octet leaves its range |
| Ipv4Text.ParseMeans | include/net_utils.h:33-50 | every text is read as its dot-separated parts, each the number its digits spell, or-ed eight bits apart |
| Ipv4Text.ParseDefinedIff | include/net_utils.h:33-50 | the arithmetic stays in range exactly for at most four parts, each at most 2^31-1 |
| Ipv4Text.ParseUndoesPrint | include/net_utils.h:59-65 | parsing the printed form of any 32-bit word gives the word |
| Ipv4Text.PrintInjective | include/net_utils.h:59-65 | no two words print alike |
| Ipv4Text.ParsesToZeroIff | include/net_utils.h:33-50 | exactly the texts read as 0: at most four parts, none out of range, and none leaving a bit in its place of the word |
| Ipv4Text.MalformedGivesZeroIff | include/net_utils.h:28-29 | exactly which texts keep the documented promise of 0 for what is not dotted decimal; if all their numbers are octets, a malformed text keeps it exactly if it has at most four parts and every number is 0 |
| Ipv4Text.TwoPartsAreNotZero | include/net_utils.h:28-29 | the text 1.2, malformed, is read as 513 |
| Ipv4Text.LettersAreNotZero | include/net_utils.h:28-29 | the text host7, malformed, is read as 7 |
| RulePersistence.LoadRules | src/rule_manager.cpp:426-491 | the loading loop brings the manager to the specified rules and ends the specified way |
| RulePersistence.NameReadsBack | src/rule_manager.cpp:455-468 | the search by name finds every application from its printed name |
| RulePersistence.PortReadsBack | src/rule_manager.cpp:475-482 | a printed port is read back by std::stoi |
| RulePersistence.LoadedDomainsComeFromLines | src/rule_manager.cpp:470-473 | every domain rule loaded is the normal form of a content line |
| RulePersistence.NoneEndsInDot | src/rule_manager.cpp:470-473 | if all domain rules come from saved lines, none is empty or ends in a dot |
| RulePersistence.SaveThenLoadRestores | src/rule_manager.cpp:380-424 | saving and loading into an empty manager restores all rules, in any iteration order of the sets, if and only if every domain rule is non-empty, normalised, newline-free, filed by its star, and does not begin with a bracket |
| RuleFile.SavedFile | src/rule_manager.cpp:380-424 | the saved text is four sections in order, each under its name, set off by empty lines |
| RuleFile.StoiMeans | src/rule_manager.cpp:475-482 | std::stoi on any text: blanks, sign and digits give their number, and an exception where there are no digits or the number does not fit |
| RuleFile.PortLineMeans | src/rule_manager.cpp:475-482 | a port line blocks its number modulo 65536 |
| RuleFile.OtherSectionsAreIgnored | src/rule_manager.cpp:439-447 | lines under any other header, and before the first one, load nothing |
| Ipv6Text.FindRun | include/ipv6_utils.h:39-51 | the search finds the leftmost longest run of at least two zero groups, or none |
| Ipv6Text.Ipv6ToString | include/ipv6_utils.h:32-71 | the printing loop writes the groups with exactly that run abbreviated |
| Ipv6Text.ExpandUndoesPrint | include/ipv6_utils.h:32-71 | expanding the text gives back the eight groups |
| Ipv6Text.PrintingIsInjective | include/ipv6_utils.h:32-71 | no two addresses print alike |
| Ipv6Text.PrintingIsDeterministic | include/ipv6_utils.h:39-51 | the abbreviated run is unique, so an address has one text |
| Ipv6Text.PrintedIffCanonical | include/ipv6_utils.h:15-16 | a text is the printed one exactly if it stands for the groups and meets sections 4.1 to 4.3 of RFC 5952: no leading zeros, lower case, only the leftmost longest run abbreviated |

## Left out

- Web dashboard, command line, console messages, reports, JSON, profiler: presentation.
- Reading and writing files: packets are a sequence, a rule file is its text.
- Clocks: a logical time is a parameter of every packet and cleanup; queue timeouts are steps that change nothing. `last_update_` and `isTimedOut` are not modelled; no code in src/ calls the latter.
- Memory model below the mutex: each locked section is one atomic step; `running_` and `shutdown_` flags change in one step each.
- Pipeline threads: a step system over values instead of objects, since its subject is interleavings. Each worker's loop body is a pop step and a push step; what a worker computes in between (parse, inspection) enters as each packet's parse result and flow key. Condition variables appear in `BoundedQueue` only; in `Pipeline` a blocked push or pop is a step that is not enabled.
- `std::hash` and the mixing function: an arbitrary function of the canonical tuple.
- IPv6 and non-IP jobs in `processPacket`, and job offsets for IPv6 and ICMP: the code has no defined behaviour there.
- QUIC name extraction and the application table: parameters of the fast path (`Env`), arbitrary functions in every theorem about verdicts. So are the DNS and HTTP extractors there; `RulesDecideDnsQuery` and `RulesDecideHttpRequest` plug in the modelled ones.
- The rules a fast path consults are parameters (`Env`) fixed during a run, with the domain rules plugged in by `RulesDecideHello`; the rule manager's locks and concurrent changes of rules are not modelled.
- Parser fields nobody downstream reads: MAC strings, traffic class, flow label, TTL and the per-kind extension header flags.
- References to entries: a `Connection*` is its key in the tracker's table; dangling pointers after an erase are not modelled.
- 64-bit counters are unbounded naturals; the reassembler's counter is proved never to underflow.
- Out-of-window segments, more than 2^31 away from the expected offset: the comparison then orders segments arbitrarily, and `std::lower_bound` is called on a list that need not be sorted. The memory theorems still cover every such run, with the insertion point taken as the first segment that is not smaller.
- Arithmetic the language leaves undefined is an outcome of its own: `OutOfBounds` for the scan's wrapped count of remaining bytes, `None` for an address text that shifts by 32 or more or overflows an octet, and `Undefined` for loading a rule file that holds one. One case is not: for a segment exactly 2^31 from the expected position the negated difference overflows a signed integer (src/tcp_reassembler.cpp:31 and 191), where the model goes on with an overlap of 2^31, so that the segment counts as old. Such a segment is outside the window of the wraparound theorems.
- The frame encoders take addresses as bytes; splitting the text of an address or a MAC is not modelled there.
- `getStats`, `forEach`, `getAllConnections`, `GlobalConnectionTable`: they read and copy.
- HelloInRun.HelloInRunIsCaughtIffInTime: assumes the flow's entry is not evicted or cleaned up between its packets.
- SegmentedHello.HelloIsCaughtIffInTime: follows one flow's entry; no RST among its packets, which would close the flow, and no SYN|ACK after the flow was given up, which would open it again (`StateKeptIffNotMovedOn`).
- Port rules never decide a verdict: `processPacket` consults addresses, applications and domains only, and no code calls `shouldBlock` (src/rule_manager.cpp:335). `shouldBlock` is modelled as an operation of the rule manager alone, and the fast path's rules (`Env`) have no ports.
- PipelineClog.ClogsIff: a packet's verdict is part of the configuration and cannot depend on the interleaving. Each run of the engine is a run of the configuration with the verdicts that run reached. Without application and domain rules a verdict is the packet's own (`AddressRulesDecide`); with them it can depend on the order in which packets of its flow arrive, which one parser fixes (`OneParserKeepsReaderOrder`), and on when cleanups run.
- PipelineClog.OneParserClogsIff: with several parsers the reader's order is one deal among others, so its condition is then sufficient (`ClogsIfHeldBack`) and `ClogsIff` is the exact one.
- ReassemblyWraparound.WrappedBufferIsMaximalPrefix: limits below 2^31, and arrivals within 2^31 of the expected offset.
- Frames.ParseUndoesIpv6TcpFrame: the repository has no IPv6 encoder, so the frame is laid out after section 3 of RFC 8200.
- PipelineProgress.NoDeadlock: with an output file only for output queues that can hold every packet that parses and is forwarded; otherwise a run can get stuck.
