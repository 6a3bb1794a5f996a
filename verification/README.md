# Market data parser: verified model

A Dafny model of the three parts of the market data parser that carry its logic: the bounded
multi-producer multi-consumer queue, the asynchronous logger that drains it into a file, and the NASDAQ
ITCH parser with its record format. `dafny verify dfyconfig.toml` checks everything.

## How the model is built

**The queue** (`QueueProtocol.dfy`) is a step machine over any number of threads. One step is one access to
shared memory (a load, a compare-exchange, a buffer access or a sequence store) with the local work that
follows it; each thread's item, position and place in the loop are part of the state, and
`compare_exchange_weak` may fail spuriously. A *schedule* is any list of (thread, action) pairs; an action a
thread cannot take changes nothing, so a statement about all schedules is a statement about all
interleavings. Each step emits an event, and histories (claimed items, deliveries, accepted items) are read
off the event log. `QueueInvariant.dfy` holds the invariant, and the other `Queue*` files the theorems.
The invariant follows tickets, not slots: each of the last Capacity tickets is held by a producer,
published, held by a consumer or released, and negative tickets stand for the round before the first.
`RingQueue.dfy` is the same queue as a class with arrays and loops, used from one thread.

**The parser** (`Bytes.dfy`, `ItchMessages.dfy`, `ItchCodec.dfy`) has one record per packed struct, read
from memory member by member as a little-endian host does and then byte-swapped. The wire encoder is what
the demo and benchmark generators do: the same struct, filled through `hton`. `ItchFields.dfy` says where each
named field lies, in literal offsets.

**The logger** is modelled twice over one set of values. `LogFile.dfy` describes the buffer, the file (a byte
sequence), the mapping and the counter as functions; what `::write` returns is decided by an arbitrary
*device* (everything, some bytes, an error). `AsyncLogger.dfy` is the object with its arrays and loops, each
method proved equal to those functions, `LogAccounting.dfy` proves the byte accounting of whole runs, and
`LogBuffer.dfy` when the buffer is written out and what its padding repeats.
`LogSession.dfy` composes the worker, any number of `log()` callers and `stop()` over the concurrent queue;
`LogGuarantees.dfy`, `LogLoss.dfy` and `LogAccepted.dfy` say what the closed file holds, `LogLiveness.dfy` when
messages reach the file of a running logger, `LogDrain.dfy` and `LogStarvation.dfy` when `stop()` returns.

## What the proofs found

- The static_assert on Capacity admits one (and zero, which no array has). With one slot a second
  `try_enqueue` overwrites the first item, and `try_dequeue` then never leaves its loop. The queue never
  holds more than Capacity items exactly when Capacity is at least two (`QueueCapacity.CapacityExact`,
  `QueueCapacity.CapacityOneStuck`), so every other queue theorem asks for two.
- Messages accepted before `stop()` begins can be missing from the file. They are all written, whatever happens
  later, exactly when no call then holds a ticket unpublished below an accepted one (`LogAccepted.AcceptedExact`);
  in `LogAccepted.AcceptedLost` a producer is paused between its claim and its publication, the drain gives up
  at its ticket, and the later message that `log()` had accepted is lost.
- When no `log()` call starts later, no message at all can be lost, those accepted after `stop()` began or even
  returned included, exactly when no call is in flight as `stop()` begins (`LogLoss.StopExact`).
- `try_enqueue` and `try_dequeue` promise to fail on a full and an empty queue (include/mpmc_queue.hpp:43-46,74-77).
  They also fail when another thread is paused inside its call (`QueuePaused.FailsThoughNotFull`,
  `QueuePaused.FailsThoughNotEmpty`); `QueueSafety.EnqueueFailsExactly` and `QueueSafety.DequeueFailsExactly` say when.
- `stop()` returns in every interleaving in which no new `log()` call begins, after a bounded number of the worker's
  steps (`LogDrain.StopReturns`); callers that go on logging can keep it waiting for any number of them
  (`LogStarvation.StopKeptWaiting`).
- In DIRECT mode the padding is never removed: with complete writes the file reads back as the messages exactly when
  no flush was padded (`LogGuarantees.ReadBack`), and a single record is padded (`LogAccounting.PaddedFlush`). The
  padding is whatever the buffer held: old records appear in the file again (`LogBuffer.RecordTwice`).
- `size()` loads two counters one after the other; the difference can never go below zero exactly when the
  caller is the only producer or the only consumer (`QueueSize.SizeExact`).
- A sequence number can reach tail + Capacity, and only in the last slot of a full queue
  (`QueueSafety.SequenceBoundReached`, `QueueSafety.SequenceBound`).
- `total_written_` counts a whole flush even when `::write` was short, so it equals the file's length in
  BUFFERED mode exactly when no positive write was short (`LogAccounting.BufferedCounter`,
  `LogAccounting.ShortWriteOvercounts`).
- The sizes asserted in test/test_parser.cpp:251-257 are not those of the packed structs
  (`ItchCodec.StructSizes`), and the header's timestamp has eight bytes where NASDAQ TotalView-ITCH 5.0 has six.
- The file is opened write-only (include/async_logger.hpp:109), which Linux refuses to map shared; MMAP results
  hold where the mapping succeeds.

## Model

| member | source | states |
|---|---|---|
| Bits.StaticAssertExact | include/mpmc_queue.hpp:27 | the static_assert holds of a positive capacity exactly when it is a power of two |
| Bits.IndexIsSlot | include/mpmc_queue.hpp:51 | pos & (Capacity - 1) is pos modulo Capacity, for every power of two |
| Bits.SlotsDistinct | include/mpmc_queue.hpp:51-52 | any Capacity consecutive tickets use distinct slots |
| Bits.SlotInWindow | include/mpmc_queue.hpp:51-52 | every window of Capacity tickets meets every slot |
| Bits.AlignUpLeast | include/async_logger.hpp:176 | (x + A - 1) & ~(A - 1) in a word is the least multiple of A not below x |
| QueueInvariant.InitialInv | include/mpmc_queue.hpp:30-35 | the constructor's state satisfies the invariant |
| QueueInvariant.ClaimInv | include/mpmc_queue.hpp:57-58 | a successful head CAS claims a slot that is still free although it was checked earlier, and keeps the invariant |
| QueueInvariant.WriteInv | include/mpmc_queue.hpp:60 | the buffer write touches no slot another thread relies on |
| QueueInvariant.PublishInv | include/mpmc_queue.hpp:61 | storing pos + 1 publishes the ticket with its item and keeps the invariant |
| QueueInvariant.TakeInv | include/mpmc_queue.hpp:88-89 | a successful tail CAS takes a ticket that is still published, its item in place |
| QueueInvariant.ReleaseInv | include/mpmc_queue.hpp:92 | storing pos + Capacity frees the slot for the next round and keeps the invariant |
| QueueInvariant.RunInvFrom | include/mpmc_queue.hpp:47-103 | every schedule, for every number of threads, keeps the invariant |
| QueueSafety.EverySlotHasPhase | include/mpmc_queue.hpp:30-103 | in every reachable state tail <= head <= tail + Capacity and every slot is free, with one producer, published with its item, or with one consumer, for some ticket |
| QueueSafety.PhaseUnique | include/mpmc_queue.hpp:30-103 | a slot is in one phase for one ticket only |
| QueueSafety.ExclusiveSlot | include/mpmc_queue.hpp:57-61 | from claim to publication or release no other thread owns the slot, so buffer accesses never overlap |
| QueueSafety.EnqueueFailsExactly | include/mpmc_queue.hpp:64-66 | try_enqueue gives up exactly when its position is head and the queue is full or a consumer holds that slot's previous ticket |
| QueueSafety.DequeueFailsExactly | include/mpmc_queue.hpp:95-97 | try_dequeue gives up exactly when its position is tail and the queue is empty or a producer holds that ticket |
| QueueSafety.QuietFailure | include/mpmc_queue.hpp:43-46 | with no other call in flight, failure means exactly full and exactly empty |
| QueuePaused.FailsThoughNotEmpty | include/mpmc_queue.hpp:74-97 | a run in which try_dequeue returns false although the caller's own accepted item is queued, because an earlier producer is paused |
| QueuePaused.FailsThoughNotFull | include/mpmc_queue.hpp:43-66 | a run in which try_enqueue returns false on a queue with Capacity - 1 items, because a consumer is paused on the next slot |
| QueueSafety.SequenceBound | include/mpmc_queue.hpp:92 | every sequence number is at most tail + Capacity, with equality exactly in the published last slot of a full queue |
| QueueSafety.SequenceBoundReached | include/mpmc_queue.hpp:61 | the bound is attained in every ring: Capacity enqueues and no dequeue put tail + Capacity in the last slot |
| QueueSafety.DiffIsTrueDifference | include/mpmc_queue.hpp:53-84 | while head + Capacity is below 2^63 both 64-bit signed differences neither overflow nor differ from the true ones, also for stale positions |
| QueueLinearisation.StepAccepted | include/mpmc_queue.hpp:47-103 | each step is a step of an atomic bounded FIFO that appends at the head CAS and removes at the tail CAS |
| QueueLinearisation.Linearises | include/mpmc_queue.hpp:47-103 | the event log of every run is accepted by the atomic FIFO: each call returns what its own CAS did, and fails only as described |
| QueueDelivery.ExactlyOnce | include/mpmc_queue.hpp:78-103 | every ticket below tail was delivered once or is in one consumer's hands, as multisets |
| QueueDelivery.DeliveredItemOfTicket | include/mpmc_queue.hpp:88-93 | every delivered item is the item enqueued under its ticket |
| QueueDelivery.Conservation | include/mpmc_queue.hpp:47-103 | enqueued items are delivered items plus those in consumers' hands plus those still queued, as multisets |
| QueueDelivery.AcceptedAreClaimed | include/mpmc_queue.hpp:57-62 | claimed items are the accepted ones plus those of calls in progress |
| QueueDelivery.SoleConsumerInOrder | test/test_parser.cpp:82-95 | a sole consumer receives tickets 0, 1, 2, ... without gaps |
| QueueDelivery.SoleConsumerPrefix | test/test_parser.cpp:82-95 | what a sole consumer received is a prefix of the items in ticket order |
| QueueDelivery.ProgramOrder | include/mpmc_queue.hpp:47-72 | tickets keep each producer's program order |
| QueueDelivery.AcceptedExactlyReturned | include/mpmc_queue.hpp:57-63 | the claimed tickets that no producer holds are exactly those whose try_enqueue has returned true |
| QueueDelivery.ProducerOrderKept | test/test_parser.cpp:66-99 | a sole consumer sees each producer's items in the order of its calls |
| QueueProgress.StepAdvances | include/mpmc_queue.hpp:50-71 | at every retry that is not spurious a thread's position strictly increases |
| QueueProgress.RetriesBounded | include/mpmc_queue.hpp:50-102 | from its beginning to any later moment, its return included, a call retries at most as often as other threads succeeded on the same counter |
| QueueProgress.CallReturns | include/mpmc_queue.hpp:47-103 | a call returns at the latest after six of its own steps, three per success of another thread on the same counter and one per spurious failure, in every interleaving |
| QueueSolo.SoloEnqueue | include/mpmc_queue.hpp:47-63 | an undisturbed try_enqueue on a free slot succeeds in one pass |
| QueueSolo.SoloDequeue | include/mpmc_queue.hpp:78-94 | an undisturbed try_dequeue on a published ticket returns its item in one pass |
| QueueCapacity.SecondEnqueueSucceeds | include/mpmc_queue.hpp:27-63 | with Capacity 1 a second enqueue also returns true and overwrites the first item |
| QueueCapacity.CapacityExact | include/mpmc_queue.hpp:27 | no run overfills the queue exactly when Capacity is at least 2 |
| QueueCapacity.CapacityOneStuck | include/mpmc_queue.hpp:81-101 | with Capacity 1, after two enqueues, try_dequeue stays in its loop for any number of steps |
| QueueSize.SizeUpperBound | include/mpmc_queue.hpp:105-109 | over every interleaving the two loads differ by at most Capacity |
| QueueSize.SoloSize | include/mpmc_queue.hpp:105-109 | undisturbed, both loads are of the same moment and the queue stays as it is |
| QueueSize.SizeExact | include/mpmc_queue.hpp:105-109 | the difference is never negative, in any run, exactly when the caller is the sole producer or the sole consumer |
| RingQueue.Ring.constructor | include/mpmc_queue.hpp:30-35 | slot i carries sequence number i, and from two slots on the ring is an empty queue |
| RingQueue.Ring.TryEnqueue | include/mpmc_queue.hpp:47-72 | appends exactly when not full, in one pass of the loop plus one per spurious failure |
| RingQueue.Ring.TryDequeue | include/mpmc_queue.hpp:78-103 | removes the oldest item exactly when not empty and otherwise leaves the caller's item alone |
| RingQueue.Ring.Size | include/mpmc_queue.hpp:105-109 | the number of queued items, at most Capacity |
| RingQueue.Ring.Empty | include/mpmc_queue.hpp:111-113 | true exactly when nothing is queued |
| RingQueue.Perform | test/test_parser.cpp:45-64 | over every operation list, with any spurious failures, the ring gives the results of a bounded FIFO list, in one pass of the loop per call plus one per failure |
| Bytes.SwapTwice | include/itch_protocol.hpp:188-198 | swapping twice gives the integer back |
| Bytes.SwapIsWire | src/demo.cpp:73-75 | a swapped integer in little-endian memory is the integer in big-endian order |
| Bytes.SwapReadsWire | include/itch_protocol.hpp:184-198 | a little-endian read followed by the swap is a big-endian read |
| Bytes.WireDigits | include/itch_protocol.hpp:184-198 | on the wire the first byte is the most significant one |
| Bytes.HostDigits | include/itch_protocol.hpp:184-198 | in host memory the last byte is the most significant one |
| ItchMessages.KindOfByte | include/itch_parser.hpp:36-98 | the dispatch knows exactly nine type bytes |
| ItchCodec.StructSizes | include/itch_protocol.hpp:45-157 | the packed structs have 13, 38, 33, 38, 25, 21, 37, 46, 14 and 41 bytes |
| ItchCodec.ReadImage | include/itch_parser.hpp:117-136 | reading a struct back from memory gives its members |
| ItchCodec.ImageRead | include/itch_parser.hpp:117-136 | the members tile the struct: writing what was read gives the same memory |
| ItchCodec.BuildValues | include/itch_protocol.hpp:56-157 | a message is determined by its members in struct order |
| ItchCodec.ValuesBuild | include/itch_parser.hpp:117-284 | each decoder puts every member of the struct into its own field |
| ItchCodec.ParseAccepts | include/itch_parser.hpp:26-101 | parse accepts exactly the strings that start with a known type byte and have that struct's size |
| ItchCodec.ParseEncode | src/demo.cpp:16-62 | parsing a generated well-typed message gives that message |
| ItchCodec.EncodeParse | include/itch_parser.hpp:26-284 | every accepted string parses to a well-typed message that encodes back to the same bytes |
| ItchCodec.ParsedMember | include/itch_parser.hpp:117-284 | every parsed member is the big-endian integer, or the characters, at its packed offset, inside the message |
| ItchFields.ParseDispatch | include/itch_parser.hpp:26-101 | each of the nine characters, with its struct's length, is parsed as its own message; everything else is refused |
| ItchFields.ParsedFields | include/itch_parser.hpp:117-284 | every named field of a parsed message is the big-endian integer, the byte or the characters at its place in the packed struct |
| ItchFields.EncodedFields | src/demo.cpp:16-62 | a generated message carries every named field at that place |
| ItchFields.RecordFields | include/async_logger.hpp:261-293 | the log record of a message carries every named field at that place in host order |
| ItchCodec.SerializeSize | include/async_logger.hpp:236-293 | a record has get_message_size bytes, none for an unknown type, at most 46 |
| ItchCodec.ReadStream | include/async_logger.hpp:261-293 | reading a stream of records of well-typed messages gives exactly those messages |
| ItchCodec.StreamRead | include/async_logger.hpp:261-293 | conversely, whatever reads as a log is the stream of the well-typed messages read |
| ItchCodec.ReadExactly | include/async_logger.hpp:261-293 | a file reads back as a list of messages exactly when it is their stream and they are well-typed |
| ItchCodec.UniquelyDecodable | include/async_logger.hpp:261-293 | the concatenated records determine the list of messages |
| LogFile.BytesToWrite | include/async_logger.hpp:171-177 | a DIRECT flush is a multiple of 4096, less than a block above the buffered bytes and never beyond the buffer |
| LogAccounting.BufferRun | include/async_logger.hpp:162-210 | for every device: what was handed over is the flushed payloads and the buffer; file and counter follow the writes |
| LogAccounting.ByteAccounting | include/async_logger.hpp:162-210 | bytes handed over = total_written_ + buffer_offset_ + bytes of flushes whose write returned <= 0, whatever the writes return |
| LogAccounting.BufferedCounter | include/async_logger.hpp:179-184 | in BUFFERED mode the file is never longer than total_written_, and as long exactly when no positive write was short |
| LogAccounting.ShortWriteOvercounts | include/async_logger.hpp:179-182 | the counter can overstate the file: after one record of which a single byte landed |
| LogAccounting.WholeExactly | include/async_logger.hpp:162-186 | without padding the file is as long as what was flushed exactly when every write was complete |
| LogAccounting.BufferedComplete | include/async_logger.hpp:162-210 | with complete writes file and buffer together are the records, and total_written_ is the file's length |
| LogAccounting.DirectComplete | include/async_logger.hpp:162-210 | with complete writes the file is whole blocks of payload and padding under 4096 bytes, the payloads are the records, total_written_ their length |
| LogAccounting.PaddedFlush | include/async_logger.hpp:171-184 | in DIRECT mode one record and one complete flush leave a whole block, which does not read back as that message |
| LogBuffer.WritesOnlyWhenFull | include/async_logger.hpp:202-209 | write_message touches the file exactly when the record does not fit into what is left of the 4 MB |
| LogBuffer.ForcedChunk | include/async_logger.hpp:203-205 | then it writes all but at most 45 bytes of the buffer |
| LogBuffer.CallsBounded | include/async_logger.hpp:162-210 | in every run each ::write other than those of flush() itself takes at least 4194259 bytes of records |
| LogBuffer.HistoryRun | include/async_logger.hpp:162-210 | in every run the i-th ::write gets the i-th answer of the device, and pads with what the buffer still holds |
| LogBuffer.PaddingRepeats | include/async_logger.hpp:171-179 | a byte of padding is that of the last ::write that reached its offset and that no later record overwrote |
| LogBuffer.PaddingFromStart | include/async_logger.hpp:39-43 | before any record reached it, a byte of padding is what the allocated buffer held |
| LogBuffer.RecordTwice | include/async_logger.hpp:171-179 | a DIRECT run after which the file holds one record twice |
| LogAccounting.OneDoublingSuffices | include/async_logger.hpp:194-200 | after one doubling the next record fits |
| LogAccounting.MapRun | include/async_logger.hpp:188-234 | across remappings the file starts with all records, and the mapping is 1 GB or less than twice total_written_ |
| LogAccounting.MapRestZero | include/async_logger.hpp:114-134 | beyond the records the mapping holds zeros |
| LogAccounting.MapClosed | include/async_logger.hpp:146-154 | closing truncates the file to exactly the records |
| AsyncLogger.Logger.constructor | include/async_logger.hpp:33-44 | a new logger is not running, its queue is empty, nothing is buffered or counted |
| AsyncLogger.Logger.Start | include/async_logger.hpp:60-68 | start opens an empty file, or the 1 GB mapping, and begins the journal; a running logger ignores it |
| AsyncLogger.Logger.FlushBuffer | include/async_logger.hpp:162-186 | flush computes the file layer's Flush in place |
| AsyncLogger.Logger.ExpandMmap | include/async_logger.hpp:212-234 | the mapping doubles and keeps its contents |
| AsyncLogger.Logger.CopyRecord | include/async_logger.hpp:261-293 | memcpy of a record changes exactly its bytes of the write buffer |
| AsyncLogger.Logger.WriteMessage | include/async_logger.hpp:188-210 | write_message computes the file layer's Write in place |
| AsyncLogger.Logger.Log | include/async_logger.hpp:92-94 | log appends to the queue exactly when it is not full |
| AsyncLogger.Logger.Iterate | include/async_logger.hpp:298-306 | one iteration of the first loop writes the oldest message, or flushes when the queue is empty |
| AsyncLogger.Logger.WorkerLoop | include/async_logger.hpp:295-312 | with nobody logging, the two loops empty the queue and write its messages in order; the journal is that of the iterations and the drain |
| AsyncLogger.IdleFlushes | include/async_logger.hpp:302-305 | an iteration of the first loop on an empty queue leaves nothing in the buffer |
| AsyncLogger.Logger.Stop | include/async_logger.hpp:46-86 | stop drains, flushes and closes, leaving the journal's file; a second stop, such as the destructor's, does nothing |
| AsyncLogger.ServesAll | include/async_logger.hpp:92-94 | up to QUEUE_SIZE messages are all accepted, whatever the worker's turns |
| AsyncLogger.LogAll | src/demo.cpp:153-184 | one thread logging in any turns with the worker, then stop and destruction: the file has exactly the accepted records in order; for every mode and device its journal accounts for it |
| LogSession.NextKeeps | include/async_logger.hpp:73-94 | every move of callers, worker and stop() keeps: messages written are those delivered by the queue, up to the one in hand |
| LogSession.SessionKeeps | include/async_logger.hpp:60-312 | so does every session, together with the file-layer invariant |
| LogGuarantees.AlwaysAPrefix | include/async_logger.hpp:295-312 | at every moment of every session, for every device, the file layer holds a prefix of the claimed messages, in ticket order, and so does the closed file |
| LogLiveness.WrittenInTime | include/async_logger.hpp:295-312 | while the logger runs every ticket below k, none of them held unpublished, is written once the worker has taken 21 Capacity + 25 steps beyond its spurious failures, whatever the others do |
| LogLiveness.IdleHandsOver | include/async_logger.hpp:302-305 | when try_dequeue fails in the first loop, the worker's next step hands over everything it has buffered |
| LogLiveness.FlushedInTime | include/async_logger.hpp:295-306 | when nobody is in log() and no call begins, the file of the running logger has every claimed message after as many steps, and keeps it |
| LogGuarantees.OrderlyStop | include/async_logger.hpp:73-86 | if no log() call is in flight when stop() begins and none starts later, every claimed message is written |
| LogGuarantees.EndToEnd | include/async_logger.hpp:73-94 | then the accepted messages, in ticket order and keeping each caller's order, are accounted for in the closed file for every device; it reads back as them exactly when it is intact |
| LogGuarantees.ReadBack | include/async_logger.hpp:162-186 | intact means: every BUFFERED write complete for any device, no DIRECT flush padded for complete writes, always for MMAP |
| LogDrain.Drain | include/async_logger.hpp:295-312 | after stop() has begun the worker, taking steps alone, finishes within a computed number of them |
| LogDrain.WorkerEnds | include/async_logger.hpp:73-86 | in every continuation without new calls the worker's loop ends once its regular steps exceed its spurious failures by the work left |
| LogDrain.StopReturns | include/async_logger.hpp:73-86 | from every state of every session stop() returns: 21 (Capacity + threads) + 50 such steps always suffice |
| LogStarvation.StopKeptWaiting | include/async_logger.hpp:309-311 | with new calls there is no bound: for every n a session keeps stop() waiting through n steps of the worker |
| LogLoss.LossPossible | include/async_logger.hpp:309-311 | from any state with a log() call in flight stop() can return with an accepted message never written |
| LogLoss.HeldTicketBlocks | include/async_logger.hpp:309-311 | while a call holds ticket t unpublished, stop() can return with no message from t on written |
| LogLoss.StopExact | include/async_logger.hpp:73-86 | stop() loses nothing, in all continuations without new calls, exactly when no log() call is in flight as it begins |
| LogAccepted.AcceptedExact | include/async_logger.hpp:73-94 | every message accepted before stop() begins is written, in every continuation, new calls included, exactly when no call then holds a ticket below an accepted one |
| LogAccepted.AcceptedLost | include/async_logger.hpp:309-311 | a session in which log() returns true, stop() begins afterwards and returns, and nothing at all was written |

## Left out

- RingQueue.Ring.constructor: says nothing of the operations of a ring with one slot, which the static_assert admits, because it is no queue; `QueueCapacity.CapacityExact` gives the exact condition.
- AsyncLogger.Logger.Log: a call with no other thread in the queue; the concurrent call is a client's step in `LogSession.Next`.
- AsyncLogger.Logger.WorkerLoop: states the loops for a queue nobody else touches meanwhile; the concurrent worker is `LogSession.WorkerStep`.
- AsyncLogger.LogAll: log() calls and the worker take turns without overlapping; overlapping ones are those of `LogGuarantees.EndToEnd`.
- LogAccounting.MapRun: holds where ftruncate and mmap succeed. When they fail in open_file, or mmap fails in expand_mmap, the code throws; it ignores the result of ftruncate in expand_mmap, and what a write beyond the file's end then does is up to the system.
- LogGuarantees.ReadBack: for DIRECT mode asks for complete writes, since a short write may end exactly at a flush's payload; what any writes leave is `LogGuarantees.FinalFile`, chunk by chunk.
- Weak memory orderings and cache-line padding: steps interleave sequentially consistently.
- Counters beyond 2^63: the queue's counters are unbounded, and `QueueSafety.DiffIsTrueDifference` covers the 64-bit words below that bound.
- A second start() after stop() (`AsyncLogger.Logger.Start` asks for an unopened logger), and concurrent calls of start() and stop(): the counter is not reset although the file is truncated again.
- include/system_utils.hpp and scripts/tune_performance.sh: operating-system and hardware calls without logic of their own.
- Real file systems (open, msync, madvise, permissions): a byte sequence and a chosen write result.
- parse_timestamp_ns: an arbitrary value handed to `ItchCodec.Parse`.
- price_to_double and get_stock_symbol: floating point and a trim of eight characters would only add easy members.
- Benchmark statistics, demo printing and build files: reporting and plumbing; the generators serve as the encoder side of the round trip.
