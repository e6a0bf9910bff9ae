# XDBC in Dafny

XDBC moves tables between data systems. A server reads a source, turns its lines into tuples, compresses and
sends them; a client receives, decompresses, turns tuples back into text and writes it. This project models the
five parts of it that are hardest to get right and proves what they are for.

1. **The buffer-pool pipeline** (`Pipeline*`, `Queue`, `Deployment`). A fixed set of buffer ids circulates through
   bounded queues between four stages of threads, on the server and on the client. It is a transition system: a
   step is one push, one pop, one `fetch_add`, one counter comparison or one local action of one thread, in any
   order, for any numbers of threads, buffers and lines. Proved over every run: each id is in one place, no data
   follows an end marker, every run is finite, and a run that cannot go on has delivered every tuple exactly once; with
   one thread in every stage in the order of the input, and otherwise with each reader's order kept within a buffer.
   The conditions for this are exact, on the server and on the client: where they fail a deadlock is constructed.
   So is the condition under which all threads return.
2. **The slow path of decimal-to-binary conversion** (`Limbs` to `SlowPath`, `Literals`, `RoundingValue`). From the
   characters of a literal to the nearest binary64 number, ties to even (section 4.3.1 of IEEE 754): scanning, limb
   arithmetic on mutable vectors, the two digit comparisons, the rounding, why 769 digits and a sticky digit are
   enough, and why 62 limbs are enough.
3. **The CSV parser and writer** (`Csv*`; section 2 of RFC 4180). The state machine and the imperative parser that
   refines it, windows that are rewound to the last complete row, text without a newline at its end, quotes in odd
   places, and the round trip through the writer, with the exact set of tables that survive it.
4. **The greedy worker allocation** (`Greedy`, `Optimizer`). Termination, the exact failing inputs, that the nested loops
   do what a simple one does, optimality, frugality, and that the pools of the returned plan meet the pipelines'
   conditions.
5. **The tuple codec** (`Layout`, `TupleBuffer`, `RowCodec`, `Packing`, `CsvDeserializer`, `CsvSink`, `CsvTransfer`).
   Lines to fixed-width cells in row or column layout and back, written in place into arrays, from the lines of a file
   over packed and repacked buffers to the file the client writes; the exact conditions for the copy to be complete
   and for every write to stay within its buffer.

`dafny verify dfyconfig.toml` checks everything.

## What the proofs found

- A deserializer indexes the pool with its first pop even if that is the end marker. Out of reach exactly when
  there is one deserializer (`PipelineRace.DeserializerSafety`).
- Let q be a queue's share: what the threads leave of the pool, by 4. For q >= 1 the server can deadlock if it
  deserializes, compresses and has 2q + S or more deserializers, and only then; a stage that only forwards takes no
  free buffers, so that neither a server without compression, which is the default, nor one that skips
  deserialization ever does. The client can if it serializes, decompresses and has 2q + r + W or more decompressors,
  and only then. For q == 0 capacity 0 makes queues unlimited, so that all ids can end up in one: a server is safe if
  and only if it does not compress and either skips deserialization or has r >= 1, a client if and only if it skips
  serialization and decompresses nothing (`Deployment.DeadlockFreedomIsExact`, `Deployment.ClientFreedomIsExact`).
- `fetch_add` and the comparison are separate, so several threads may each issue a round of end markers. The data
  still arrives, but a thread of the stage can be left waiting on a full queue for ever. This is ruled out if and
  only if every queue has room for the markers that all but one thread of the stage before may push in excess
  (`PipelineHang.JoinIsExact`, `Deployment.ServerJoinIsExact`, `Deployment.ClientJoinIsExact`); the optimizer's pools
  do not ensure it (`Deployment.OptimizerPoolCanHang`).
- The client's serializer loses the output buffer it has taken if and only if an input buffer is empty
  (`PipelineFilled.LosesIfEmpty`); the client's results hold because received buffers are not
  (`PipelineFilled.NothingLost`).
- The client's CSV sink compares with the nominal size of a buffer, but a pool buffer has room for whole tuples only.
  It writes beyond the end if and only if some line goes beyond that room in the buffer the comparison puts it into
  (`CsvSink.SerializeTuples`): never when the size of a tuple divides that of a buffer and a buffer has room for the
  longest line (`CsvSink.DividedNeverOverruns`), but for example with one text of 600 characters and buffers of 1 KiB
  (`CsvSink.LongLineOverruns`).
- When it takes a further buffer it assigns to a reference that names the first one, so that everything goes there
  and what the writer finds is only the last part of the lines. The copy of a file is complete if and only if one
  buffer is enough for the text of every buffer of tuples: after each of its lines but the last there is room for the
  longest possible line (`CsvSink.KeptIsAll`, `CsvTransfer.Transfer`, `CsvTransfer.CopyFile`).
- The server's reader copies a line beyond the end of its buffer if and only if it is longer than the payload
  (`Packing.PackLines`).
- `positive_digit_comp` of zero gives one half (`DigitComp.ZeroIsWrong`); its callers exclude zero.
- `round` cuts the shift off at 64. The halfway test it offers its callback is right if and only if the binary exponent
  is at least -63; further down every value is taken to be at or above the middle (`RoundingValue.HalfwayIsRight`).
- `long_mul` by an empty span leaves the number as it is instead of giving zero (`BigInt.StackVec.LongMul`).
- The explicit exponent saturates: it is exact if and only if it is below 2684354560 (`Decimal.SaturatedIsExact`).
- A newline directly behind a newline is swallowed as if it were CR LF, so a lone empty field in any but the first
  record is lost, and an unquoted first field loses a byte-order mark; nothing else is lost
  (`CsvWriter.RoundTrip`).
- Without the newline behind the last row, what is read is the same if and only if the last field is not an empty one
  in quotes and the last row is not an empty line that would have been delivered (`CsvOpenFile.ReadUnended`,
  `CsvOpenFile.ReadAllUnended`).
- The flag for doubled quotes is not reset between windows. A field that is not in quotes but has two of them in it
  reads wrongly as the first one of a window if the window before was cut off behind a doubled quote
  (`CsvLoose.LooseReadsBack`, `CsvLoose.FirstWindow`, `CsvLoose.FlagIsNotReset`).
- The allocation fails with a Python `TypeError` on tables with no working stage, and on some with just one
  (`Greedy.Allocate`).
- A windowed parse of a file shorter than `ITERATION_CHUNK_SIZE` in windows smaller than the file stops after the
  first window, because `no_chunk()` reports the end; it is complete if and only if that is not so
  (`CsvMmap.ReadAll`, `CsvMmap.SmallWindowsAreNot`). All calls in `csv.hpp` (lines 6404, 6420, 7283, 7301, 7533 and
  7567) use windows of that very size, for which it always is (`CsvMmap.WholeChunksAreFair`).
- A blank line is swallowed behind a row in the same window but is a row of its own at the start of a window, so what
  is read of a file with blank lines depends on the size of the windows (`CsvMmap.WindowsMatter`); without blank lines
  behind the first it does not (`CsvMmap.WindowedAll`).

## Model

| member | source | states |
|---|---|---|
| Queue.CustomQueue.constructor | server/customQueue.h:16-16 | A new queue is empty; capacity 0 means unlimited. |
| Queue.CustomQueue.Push | server/customQueue.h:18-27 | Goes through if and only if there is room, and then appends the value behind all others. |
| Queue.CustomQueue.Pop | server/customQueue.h:29-36 | Goes through if and only if the queue is not empty; takes the oldest value and keeps the order of the rest. |
| Queue.CustomQueue.SetCapacity | server/customQueue.h:43-49 | Changes the capacity and no element, also when there are more of them than that. |
| Deployment.FillFree | server/xdbcserver.cpp:70-71 | All ids are in the free queue, in order, each once. |
| Deployment.Prepare | client/xdbc/xclient.cpp:79-99 | The free queue holds every id and is unlimited; the other queues are empty and have the given capacities. |
| Deployment.Queues.Server | server/xdbcserver.cpp:64-113 | The queues start as the pipeline's initial state, with capacities q + r, q, q for q and r the quotient and remainder (C++ `int`, then `size_t`) of what the threads leave, by 4. |
| Deployment.Queues.Client | client/xdbc/xclient.cpp:56-99 | The same with capacities q, q, q + r. |
| Deployment.QuotIs | server/xdbcserver.cpp:90-91 | Division is towards zero: the remainder has the sign of the dividend, also where the threads need more buffers than there are. |
| Deployment.ToSizeIs | server/customQueue.h:43-49 | A negative capacity becomes one that is never reached. |
| PipelineOwnership.WeighStep | server/Compression/Compressor.cpp:27-107 | No step of any stage changes the total weight of the ids in queues, threads and losses, whatever weight each id has: ids are neither duplicated nor invented. |
| PipelineOwnership.NoSharing | server/DataSources/CSVReader/CSVReader.cpp:443-445 | An id held by a thread is a pool index, is held once by it, and is in no queue and with no other thread. |
| PipelineProgress.ExclusiveOwnership | server/Compression/Compressor.cpp:90-105 | In every reachable state a held id is in exactly one place, through both swaps of the compressor. |
| PipelineProgress.InvAlways | server/DataSources/CSVReader/CSVReader.cpp:376-508 | Every reachable state satisfies the invariant (shapes, ownership, counters, marker order), and the tuples in the system are the input's, counted with multiplicity. |
| PipelineProgress.MarkersFollowData | server/DataSources/CSVReader/CSVReader.cpp:278-282 | In every reachable state no queue holds data behind an end marker, and once a worker has popped a marker its queue holds no data and every upstream thread has counted itself finished. |
| PipelineProgress.EndMeansDrained | server/Compression/Compressor.cpp:29-32 | From the invariant: a stopped worker implies a drained input queue and a complete upstream counter. |
| PipelineProgress.FullRoundIssued | server/Compression/Compressor.cpp:112-116 | When all threads of a stage have returned, at least one marker for every thread of the next stage was issued, whatever the interleaving of increments and comparisons. |
| PipelineProgress.StuckMeansBlocked | server/customQueue.h:20-34 | When nothing can move, each thread has returned or waits on a full or an empty queue. |
| PipelineProgress.FreeNotEmpty | server/xdbcserver.cpp:97-98 | The counting argument: with enough ids and the queues before the threads that take free buffers bounded, full queues and blocked threads cannot hold all ids; fewer suffice when the second or the third stage only forwards. |
| PipelineProgress.StuckMeansSinksDone | server/xdbcserver.cpp:193-226 | Deadlock freedom for any roles: a state where nothing can move has all sinks returned, if the ids outnumber what can be held. |
| PipelineDelivery.AllDelivered | server/xdbcserver.cpp:208-218 | When all sinks have returned, what was sent and what was dropped is all there was. |
| PipelineDelivery.NothingDropped | server/Compression/Compressor.cpp:90-96 | Without lossy codecs no run drops a tuple; without expanding serializers none loses an id. |
| PipelineDelivery.StuckMeansDelivered | server/xdbcserver.cpp:193-226 | A run that cannot go on has all sinks returned, all data queues drained, and as output the input as a multiset: each tuple exactly once, but for drops. |
| PipelineOrder.PlanOrder | server/DataSources/CSVReader/CSVReader.cpp:385-445 | Every thread, whatever its role, passes tuples on from the front of what it has, writes them in that order, and puts what it takes behind it. |
| PipelineOrder.StepFlow | server/Compression/Compressor.cpp:27-107 | With one thread in every stage no step changes the order of the tuples, from those sent to those not read yet; it may only take some out. |
| PipelineOrder.FlowAlways | server/DataSources/CSVReader/CSVReader.cpp:218-508 | So in every reachable state they are the input, or what failed decompressions have left of it, in order. |
| PipelineOrder.SentInOrder | server/xdbcserver.cpp:193-226 | With one thread in every stage what has been sent is at any time the beginning of the input, and with failing decompressions a subsequence of it. |
| PipelineOrder.StuckMeansInOrder | server/xdbcserver.cpp:193-226 | A run of such a pipeline that cannot go on has sent the input as it was. |
| PipelineReaders.InOrderAlways | server/DataSources/CSVReader/CSVReader.cpp:376-508 | For any numbers of threads: what a thread of the second stage has of a reader's tuples comes before all that reader has still to pass on. |
| PipelineReaders.BuffersInOrder | server/DataSources/CSVReader/CSVReader.cpp:385-445 | For any numbers of threads, in every reachable state a buffer has the tuples of one reader in that reader's order. |
| PipelineFull.PackedAlways | server/DataSources/CSVReader/CSVReader.cpp:430-508 | In every reachable state a deserializer pushes a buffer only when it is full, or, after the end of its input, when it is not empty. |
| PipelineTermination.StepShrinks | server/DataSources/CSVReader/CSVReader.cpp:218-282 | Every step of every thread decreases a natural number computed from unread lines, tuples, stages of buffers and unissued markers. |
| PipelineTermination.RunsAreFinite | server/Compression/Compressor.cpp:27-116 | Every run is at most as long as the measure of the initial state. |
| PipelineFilled.NothingLost | client/Sinks/CSVSink/CSVSink.cpp:235-245 | If received buffers hold tuples, then in every run of the client all buffers on their way do, so the serializer never loses an output buffer. |
| PipelineFilled.LosesIfEmpty | client/Sinks/CSVSink/CSVSink.cpp:182-245 | From every state in which a serializer waits for its next buffer, a run leads to where it loses the output buffer it has taken if and only if that next buffer is empty. |
| PipelineJoin.AllThreadsReturn | server/DataSources/CSVReader/CSVReader.cpp:540-544 | If the queues have room for surplus rounds of markers, a run that cannot go on has every thread returned; that the room is also needed is `PipelineHang.JoinIsExact`. |
| PipelineJoin.RaceHangs | server/DataSources/CSVReader/CSVReader.cpp:278-282 | If they do not, then once all threads of a stage have raced, every way of finishing the run leaves one of them waiting with markers in hand. |
| PipelineHang.JamMeansTesting | server/DataSources/CSVReader/CSVReader.cpp:278-282 | If only the threads of one stage that stand at the comparison are held back and nothing else can move, then all threads of the stage stand there. |
| PipelineHang.OpenedMeansBegun | server/DataSources/CSVReader/CSVReader.cpp:376-385 | A schedule that gives every deserializer one data buffer first ends with all of them past their first pop. |
| PipelineHang.HangReachable | server/Compression/Compressor.cpp:112-116 | For every stage without that room, on server and client, a run leads to where no continuation goes wrong at a first pop and every one that ends leaves a thread of the stage waiting. |
| PipelineHang.JoinIsExact | client/xdbc/xclient.cpp:551-555 | All threads return, on every input and schedule, if and only if every queue has room for the surplus markers of the stage before it. |
| PipelineRace.UndefReachable | server/DataSources/CSVReader/CSVReader.cpp:376-382 | With two or more deserializers a run leads one of them to use -1 as its first input buffer. |
| PipelineRace.OneDeserializerIsSafe | server/DataSources/CSVReader/CSVReader.cpp:376-382 | With one it never does, on any input and schedule. |
| PipelineRace.DeserializerSafety | server/DataSources/CSVReader/CSVReader.cpp:376-382 | No run of the server uses -1 as a buffer if and only if there is one deserializer. |
| PipelineDeadlock.StaysRich | server/DataSources/CSVReader/CSVReader.cpp:218-274 | In the constructed run the sources never run out of lines. |
| PipelineDeadlock.JamTakesAll | server/xdbcserver.cpp:97-113 | Where the schedule ends no id is left in the free queue: the queues are full and the threads hold what they can, or a queue is unlimited and has taken the rest. |
| PipelineDeadlock.JamIsStuck | server/DataSources/CSVReader/CSVReader.cpp:443-480 | Then nothing can move. |
| PipelineDeadlock.DeadlockReachable | server/DataSources/CSVReader/CSVReader.cpp:376-485 | If a stage takes free buffers to write to, and the ids can all be queued before it or held by the threads up to it, because a queue is unlimited or there are no more ids than that, a run reaches a state where nothing can move, nothing has been sent and the last stage waits. |
| Deployment.ServerHolds | server/xdbcserver.cpp:77-113 | The needed queues are bounded and the ids outnumber what can be held if and only if: for q >= 1 the server skips deserialization, does not compress, or D < 2q + S; for q == 0 it does not compress and skips deserialization or has r >= 1. |
| Deployment.ServerRoomy | server/xdbcserver.cpp:77-113 | So the counting argument applies to every such server. |
| Deployment.ServerNeverUndefined | server/DataSources/CSVReader/CSVReader.cpp:297-308 | With deserialization skipped, or with one deserializer, the first-pop defect is out of reach. |
| Deployment.ServerDelivers | server/xdbcserver.cpp:77-113 | Under that condition, when no thread can move, every sender has returned and what was sent is the input, each tuple once. |
| Deployment.ServerSendsInOrder | server/xdbcserver.cpp:193-226 | A server with one thread in every stage has sent a beginning of the input at any time, and all of it, in order, when no thread can move. |
| Deployment.ServerBuffersInOrder | server/DataSources/CSVReader/CSVReader.cpp:385-445 | In any server a buffer has the lines of one reader in that reader's order. |
| Deployment.DeadlockFreedomIsExact | server/Compression/Compressor.cpp:35-43 | A server with a buffer for every thread, whatever it skips or compresses, never gets stuck before its senders are done, for all inputs and schedules, if and only if that condition holds, for q >= 1 and for q == 0. |
| Deployment.ClientHolds | client/xdbc/xclient.cpp:77-78 | The same on the client: for q >= 1 it skips serialization, decompresses nothing, or decomp < 2q + r + writers; for q == 0 it skips serialization and decompresses nothing. |
| Deployment.ClientRoomy | client/xdbc/xclient.cpp:77-78 | So the counting argument applies to every such client. |
| Deployment.ClientDelivers | client/xdbc/xclient.cpp:404-555 | Under that condition a client run that cannot go on has all writers returned and wrote the input, each tuple once, but for failed decompressions. |
| Deployment.ClientWritesInOrder | client/Sinks/CSVSink/CSVSink.cpp:342-362 | A client with one thread in every stage has written a subsequence of what it received. |
| Deployment.ClientFreedomIsExact | client/Sinks/CSVSink/CSVSink.cpp:31-45 | A client with a buffer for every thread never gets stuck before its writers are done, for all received streams and schedules, if and only if that condition holds. |
| Deployment.ServerJoinIsExact | server/xdbcserver.cpp:97-113 | All threads of a server return, always, if and only if it never gets stuck before and (R - 1) D <= q + r, (D - 1) C <= q and (C - 1) S <= q, each unless that queue is unlimited. |
| Deployment.ClientJoinIsExact | client/xdbc/xclient.cpp:77-93 | All threads of a client return, always, if and only if the same holds with the remainder at the writers' queue. |
| Deployment.ReadersCanHang | server/DataSources/CSVReader/CSVReader.cpp:278-282 | Without the first of these, a run after which every continuation that ends leaves a reader waiting, none having gone wrong at a first pop. |
| PipelineRuns.OneFurther | client/Sinks/CSVSink/CSVSink.cpp:102-310 | Unless nothing can move, some step leads to another invariant state with less work left. |
| PipelineRuns.Finish | client/Sinks/CSVSink/CSVSink.cpp:342-362 | From every invariant state a run leads to one where nothing can move. |
| PipelineRuns.Completion | server/xdbcserver.cpp:193-226 | Every run can be continued to one that cannot go on, so the delivery theorems apply to it. |
| Deployment.OptimizerPoolSuffices | client/optimizer/optimizers/heuristics.py:142-146 | Three buffers per worker meet both conditions, for every staffing. |
| Deployment.OptimizerPoolCanHang | client/optimizer/optimizers/heuristics.py:142-146 | They do not ensure that readers return: a staffing and a run after which one waits for ever. |
| BigInt.StackVec.constructor | server/DataSources/fast_float.h:2255-2257 | A new vector is empty and has the given capacity. |
| BigInt.StackVec.TryPush | server/DataSources/fast_float.h:2310-2317 | Succeeds if and only if there is room, and appends the limb. |
| BigInt.StackVec.TryExtend | server/DataSources/fast_float.h:2325-2332 | Succeeds if and only if there is room, and appends the limbs. |
| BigInt.StackVec.TryResize | server/DataSources/fast_float.h:2349-2356 | Succeeds if and only if the new length fits; growing keeps the number, shrinking the low limbs. |
| BigInt.StackVec.Normalize | server/DataSources/fast_float.h:2370-2374 | The same number without leading zero limbs. |
| BigInt.StackVec.PushCarry | server/DataSources/fast_float.h:2485-2487 | A final carry completes the number, and fails if and only if that does not fit. |
| BigInt.StackVec.SmallAddFrom | server/DataSources/fast_float.h:2476-2489 | Adds y * B^start, and succeeds if and only if the sum fits. |
| BigInt.StackVec.MulLimbs | server/DataSources/fast_float.h:2502-2505 | The limbs and the outgoing carry are the product. |
| BigInt.StackVec.SmallMul | server/DataSources/fast_float.h:2501-2510 | Multiplies by y, and succeeds if and only if the product fits. |
| BigInt.StackVec.AddLimbs | server/DataSources/fast_float.h:2523-2536 | The limbs and the outgoing carry are the sum. |
| BigInt.StackVec.LargeAddFrom | server/DataSources/fast_float.h:2516-2542 | Adds y * B^start; for normalised y it succeeds if and only if the sum fits. |
| BigInt.StackVec.AddRow | server/DataSources/fast_float.h:2563-2572 | A row of the grade-school scheme adds z * yi * B^index, and fails only if that does not fit. |
| BigInt.StackVec.LongMul | server/DataSources/fast_float.h:2554-2578 | Multiplies by y (by 1 if y is empty); for normalised operands it succeeds if and only if the product fits. |
| BigIntPowers.SmallTable | server/DataSources/fast_float.h:2595-2602 | The table holds the powers of five below 5^28. |
| BigIntPowers.LargeTable | server/DataSources/fast_float.h:2604-2606 | The five limbs are 5^135. |
| BigIntPowers.LargeMul | server/DataSources/fast_float.h:2583-2590 | Multiplies, by either of two ways (by 1 if there are no limbs); for positive factors it succeeds if and only if the product fits. |
| BigIntPowers.LargeSteps | server/DataSources/fast_float.h:2804-2807 | Steps by 5^135 keep value * 5^remaining, and fail only if that does not fit. |
| BigIntPowers.SmallSteps | server/DataSources/fast_float.h:2815-2818 | Likewise by 5^27, until fewer than 27 factors remain. |
| BigIntPowers.Pow5 | server/DataSources/fast_float.h:2800-2829 | Multiplies by 5^exp; for positive numbers it succeeds if and only if the product fits. |
| BigIntShift.ShlBits | server/DataSources/fast_float.h:2706-2729 | Multiplies by 2^n for 0 < n < 64, and succeeds if and only if the result fits. |
| BigIntShift.ShlLimbs | server/DataSources/fast_float.h:2732-2750 | Multiplies by B^n, and fails for positive numbers only if the result does not fit. |
| BigIntShift.Shl | server/DataSources/fast_float.h:2753-2763 | Multiplies by 2^n; for positive numbers it succeeds if and only if the result fits. |
| BigIntShift.Pow10 | server/DataSources/fast_float.h:2832-2835 | Multiplies by 10^exp; for positive numbers it succeeds if and only if the product fits. |
| BigIntHigh.Compare | server/DataSources/fast_float.h:2685-2702 | Orders normalised numbers as the integers. |
| BigIntHigh.BitLength | server/DataSources/fast_float.h:2766-2784 | The least number of bits that hold the value: 2^(bits-1) <= value < 2^bits, and 0 for zero. |
| BigIntHigh.LengthIsLength | server/DataSources/fast_float.h:2781-2784 | It is the n with 2^(n-1) <= value < 2^n. |
| BigIntHigh.Nonzero | server/DataSources/fast_float.h:2360-2368 | True if and only if the limbs below are not all zero. |
| BigIntHigh.Hi64 | server/DataSources/fast_float.h:2653-2663 | The leading 64 bits, and whether any lower bit is set. |
| Binary64.NearestIsUnique | server/DataSources/fast_float.h:2961-2984 | At most one number is nearest with ties to even. |
| Binary64.RoundsToOne | server/DataSources/fast_float.h:2961-2984 | Every fraction rounds to exactly one binary64 number or infinity. |
| Binary64.RoundsToChosen | server/DataSources/fast_float.h:2961-2984 | Comparing with the middle of the enclosing neighbours, and with the parity on a tie, gives the nearest among all numbers. |
| Binary64.Overflows | server/DataSources/fast_float.h:2951-2956 | Values from 2^1024 on round to infinity. |
| Rounding.RoundsDown | server/DataSources/fast_float.h:2931-2957 | Rounding down gives the pattern of the mantissa cut off, through the subnormal range, the carry and the overflow to infinity. |
| RoundingValue.DownIsFloor | server/DataSources/fast_float.h:2931-2984 | That pattern is the greatest number, on an unbounded scale, that is not above the value, however small the exponent. |
| Rounding.RoundsByDecision | server/DataSources/fast_float.h:2931-2984 | Rounding to nearest gives that number or the next, as the callback decides on the parity and the bits cut off. |
| RoundingValue.HalfwayIsRight | server/DataSources/fast_float.h:2933-2936 | The bits cut off compare with half a unit as the value does with the middle of its neighbours if and only if the exponent is at least -63. |
| DigitComp.HighBitsRound | server/DataSources/fast_float.h:3161-3176 | Rounding the leading 64 bits with the truncation flag rounds the whole integer. |
| DigitComp.PositiveDigitComp | server/DataSources/fast_float.h:3161-3176 | The result is the binary64 number nearest to bigmant * 10^e, ties to even, or infinity; it succeeds if and only if the product fits. |
| DigitComp.ZeroIsWrong | server/DataSources/fast_float.h:3161-3176 | What it gives for zero is not the number nearest to zero. |
| DigitComp.HalfwayIsMiddle | server/DataSources/fast_float.h:2886-2926 | The extended halfway point is the middle between a number and the next, normal or not. |
| DigitComp.ScaledSides | server/DataSources/fast_float.h:3199-3212 | The scaled big integers compare as the value and the halfway point do. |
| DigitComp.CompareDigits | server/DataSources/fast_float.h:3199-3215 | The order of the scaled sides; succeeds if and only if both fit. |
| DigitComp.NegativeDigitComp | server/DataSources/fast_float.h:3185-3229 | If b <= value < successor(b) for the rounded-down guess b, the result is the nearest number, ties to even; it succeeds if and only if both sides fit. |
| Words.MadeOfDigitsIsExact | server/DataSources/fast_float.h:1076-1079 | The word test is true if and only if every byte is an ASCII digit, for words of any length. |
| Words.ParseEightIsExact | server/DataSources/fast_float.h:1053-1062 | The unrolled parse gives the decimal value of eight digits. |
| Words.Umul128IsProduct | server/DataSources/fast_float.h:397-406 | The two words are the product of any two words. |
| Decimal.SaturatedIsExact | server/DataSources/fast_float.h:1253-1261 | The accumulated exponent is the decimal value if and only if that is below 2684354560, and never above it. |
| Decimal.ScanEights | server/DataSources/fast_float.h:1217-1219 | Eight digits at a time give what one at a time would, modulo 2^64. |
| Decimal.CountSignificant | server/DataSources/fast_float.h:1275-1284 | Skipping leading zeros and the point leaves the number of significant digits. |
| Decimal.Rescan | server/DataSources/fast_float.h:1287-1311 | For more than 19 significant digits: m * 10^e <= value < (m + 1) * 10^e with a 19-digit m. |
| Decimal.ParseNumberString | server/DataSources/fast_float.h:1178-1316 | Accepts exactly the well-formed literals; mantissa and exponent equal the literal up to 19 significant digits and bracket it beyond; the spans, the sign and the end of the match are those of the grammar. |
| Literals.FindsMantissa | server/DataSources/fast_float.h:1178-1233 | For a text put together from a sign, digits, a point and digits, the scanner finds just these. |
| Literals.FindsExponent | server/DataSources/fast_float.h:1234-1268 | And the exponent, with either mark and any sign, if and only if there is one. |
| Literals.ExponentIsRead | server/DataSources/fast_float.h:1249-1262 | The exponent is the signed value of its digits, saturated, where the format takes one, and 0 otherwise. |
| Literals.WellFormedIsExact | server/DataSources/fast_float.h:1178-1316 | A text is accepted if and only if it begins with a literal by these parts that has the exponent the format asks for. |
| ParseMantissa.ScientificExponent | server/DataSources/fast_float.h:2866-2882 | The exponent of the leading digit. |
| ParseMantissa.SkipZeros | server/DataSources/fast_float.h:2998-3014 | Stops at the first nonzero digit, although it goes by eights. |
| ParseMantissa.IsTruncated | server/DataSources/fast_float.h:3019-3035 | True if and only if a nonzero digit is among the rest. |
| ParseMantissa.ParseDigits | server/DataSources/fast_float.h:3080-3157 | The integer of the first max_digits significant digits, with a final 1 exactly when a nonzero digit was dropped; normalised, and never out of limbs. |
| Sufficient.DigitsOfMidpoints | server/DataSources/fast_float.h:3251-3251 | Every midpoint of neighbours has at most 769 significant digits. |
| Sufficient.PointOutside | server/DataSources/fast_float.h:3251-3251 | So no number or midpoint lies strictly between consecutive 769-digit decimals. |
| Sufficient.SameRounding | server/DataSources/fast_float.h:3070-3074 | Two values strictly between the same ones round alike. |
| Capacity.SidesAlwaysFit | server/DataSources/fast_float.h:2246-2247 | 62 limbs hold both sides of the comparison for any 770-digit mantissa, a decimal exponent down to -1111 and a guess not above the value. |
| Capacity.WholeFits | server/DataSources/fast_float.h:2246-2247 | They hold any product of a non-negative exponent with fewer than 328 digits. |
| SlowPath.BuildMantissa | server/DataSources/fast_float.h:3250-3256 | The big integer and its exponent are the shortened literal. |
| SlowPath.DigitCompare | server/DataSources/fast_float.h:3244-3262 | The shortened literal is rounded to nearest, ties to even; exactly when it succeeds. |
| SlowPath.AlwaysFits | server/DataSources/fast_float.h:2116-2127 | For every exponent the fast path leaves over, all products fit. |
| SlowPath.ReadSlowly | server/DataSources/fast_float.h:3244-3262 | Every literal of any length, in that exponent range, is rounded to the nearest binary64 number, ties to even, or infinity, if the guess brackets it where the exponent is negative; no capacity is ever exceeded. |
| CsvFlags.FlagIsKind | server/DataSources/csv.hpp:4817-4819 | The masked flag of a character in or out of quotes names its role in RFC 4180, both directions. |
| CsvFlags.EndsFieldFlag | server/DataSources/csv.hpp:4821-4823 | The `>=` comparison recognises exactly separators and newlines. |
| CsvText.UnescapeDouble | server/DataSources/csv.hpp:7696-7711 | Unescaping undoes the doubling of quotes. |
| CsvReader.Parser.RecordField | server/DataSources/csv.hpp:6956-6980 | Records the field's offset, length and quote flag, and resets the field state. |
| CsvReader.Parser.RecordRow | server/DataSources/csv.hpp:7063-7066 | Records the row over the fields since its start. |
| CsvReader.Parser.ReadField | server/DataSources/csv.hpp:6931-6954 | Runs to the end of the unquoted stretch. |
| CsvReader.Parser.ReadInner | server/DataSources/csv.hpp:7019-7041 | Tells a closing quote, an escaped quote and a stray one apart, and gives up on the text's last character. |
| CsvReader.Parser.ReadOpening | server/DataSources/csv.hpp:7043-7056 | Opens a quoted field only at its start. |
| CsvReader.Parser.ReadNewline | server/DataSources/csv.hpp:7000-7013 | Ends field and row, and swallows a second newline character. |
| CsvReader.Parser.Advance | server/DataSources/csv.hpp:6993-7058 | Each round of the loop is one step of the state machine, or the early return. |
| CsvReader.Parser.Parse | server/DataSources/csv.hpp:6983-7061 | The loop computes the state machine's run and returns where the last incomplete row starts. |
| CsvReader.Parser.Finish | server/DataSources/csv.hpp:6913-6929 | Flushes an open field and row, and an empty last field. |
| CsvOpen.RowIsFlushed | server/DataSources/csv.hpp:6913-6929 | Of a last row without its newline all fields are recorded, and the row if there are any, but for an empty field in quotes at the end. |
| CsvOpen.OpenParsed | server/DataSources/csv.hpp:6913-6929 | So parsing and finishing such a text records the table but for that field. |
| CsvOpenFile.UnendedIsWhole | server/DataSources/csv.hpp:6913-6929 | What is recorded is the whole table if and only if the last field is not an empty one in quotes and the last row not an empty line that would have been delivered. |
| CsvOpenFile.ReadUnended | server/DataSources/csv.hpp:6913-7061 | Parsing any valid text without its last newline and reading it gives the table, but for what is lost; the same as with it on just that condition. |
| CsvLoose.OverLoose | server/DataSources/csv.hpp:7043-7056 | The parser passes an unquoted field with quotes behind its first character like one without. |
| CsvLoose.LooseReadsBack | server/DataSources/csv.hpp:7683-7717 | It reads back unchanged if and only if the flag for doubled quotes is not left over, or there are fewer than two quotes in it. |
| CsvLoose.InnerPassed | server/DataSources/csv.hpp:7019-7041 | From an opening quote on, the parser passes any text in which a quote is doubled or not followed by the end of the field. |
| CsvLoose.InnerReadsBack | server/DataSources/csv.hpp:7019-7041 | It reads back, quotes that stand alone included. |
| CsvLoose.FirstWindow | server/DataSources/csv.hpp:7094-7122 | A window that leaves that flag set, and is rewound to its second row. |
| CsvLoose.FlagIsNotReset | server/DataSources/csv.hpp:7094-7099 | The first field of the next window then reads as another text. |
| CsvRows.CrLfStep | server/DataSources/csv.hpp:7000-7013 | A carriage return ends a row like a newline, and a newline behind it belongs to it. |
| CsvReader.UnescapeField | server/DataSources/csv.hpp:7696-7711 | Collapses pairs of quotes. |
| CsvReader.GetField | server/DataSources/csv.hpp:7683-7717 | Fails if and only if the index is out of range, else gives the unescaped characters at the recorded offsets. |
| CsvRows.OverQuoted | server/DataSources/csv.hpp:7019-7041 | The machine runs over the inside of any quoted field to behind its closing quote, without recording anything. |
| CsvRows.OverField | server/DataSources/csv.hpp:6931-6980 | It runs over a whole field, quoted or not. |
| CsvRows.FieldReadsBack | server/DataSources/csv.hpp:7683-7717 | What it records reads back as the field's value. |
| CsvRows.OverRow | server/DataSources/csv.hpp:6993-7058 | It runs over a row. |
| CsvRows.RowIsDone | server/DataSources/csv.hpp:7063-7066 | The recorded row has the row's values in order. |
| CsvTable.TextIsTable | server/DataSources/csv.hpp:7003-7012 | Rows one behind the other are such a table even where newlines are swallowed. |
| CsvTable.OverRows | server/DataSources/csv.hpp:6983-7061 | The machine runs over any sequence of rows. |
| CsvTable.RowsAreDone | server/DataSources/csv.hpp:7063-7066 | It records exactly the rows that are not swallowed, with their values, in order. |
| CsvTable.DeliveredAtMost | server/DataSources/csv.hpp:7003-7005 | All rows are delivered if and only if none behind the first is blank; otherwise fewer. |
| CsvTable.CutQuoted | server/DataSources/csv.hpp:7019-7041 | In a quoted field that the window cuts off no row is recorded and the row start stays. |
| CsvTable.CutRow | server/DataSources/csv.hpp:6983-7061 | Likewise in a row cut off at any place. |
| CsvWindow.WindowSplits | server/DataSources/csv.hpp:7100-7112 | A window is the complete lines that fit and a proper prefix of the next. |
| CsvWindow.WindowParsed | server/DataSources/csv.hpp:6983-7061 | Parsing it records the complete rows, but for blank ones right behind another, and returns the start of the rest, also behind a byte-order mark. |
| CsvWindow.FieldsGrow | server/DataSources/csv.hpp:6956-6980 | Parsing never changes a recorded field. |
| CsvMmap.MmapParser.Next | server/DataSources/csv.hpp:7094-7122 | One call parses the next window from a fresh state, flushes at the end of the file, and rewinds to the last complete row. |
| CsvBounds.RecordsInside | server/DataSources/csv.hpp:6956-6980 | Whatever the text, valid or not, every recorded field lies within it. |
| CsvMmap.ReadWindow | server/DataSources/csv.hpp:7094-7122 | A call delivers the complete rows of the window with their values, at most one row made of what is cut off, and that only if the end is reported early; it leaves the rest, and advances or reports the end. |
| CsvMmap.ReadAll | server/DataSources/csv.hpp:7094-7122 | For any valid file whose rows fit into a window: repeated calls end, and they deliver what the windows hold, each row once, in order, with its values and without the byte-order mark, and read the file to its end, if and only if the file fits into one window or has at least `ITERATION_CHUNK_SIZE` characters; otherwise only rows of the first window arrive as they should. |
| CsvOpenFile.ReadAllUnended | server/DataSources/csv.hpp:7094-7122 | The same for files without the newline behind their last row: where the windows reach the end before it is reported, the table is that of the file with the newline if and only if its last field and last row are not lost. |
| CsvMmap.WindowedAll | server/DataSources/csv.hpp:7003-7012 | If no row behind the first is blank, what the windows hold is the whole table, whatever their size. |
| CsvMmap.WindowsMatter | server/DataSources/csv.hpp:7003-7012 | A file with a blank line, and two sizes of windows in which it reads as different tables. |
| CsvMmap.WholeChunksAreFair | server/DataSources/csv.hpp:6404-6420 | With windows of `ITERATION_CHUNK_SIZE` characters the condition holds for every file. |
| CsvMmap.SmallWindowsAreNot | server/DataSources/csv.hpp:6073-6073 | A file and a window for which it does not. |
| CsvWriter.Escape | server/DataSources/csv.hpp:6751-6788 | Quotes a field if and only if it holds a quote, separator or newline character, and doubles its quotes. |
| CsvWriter.WriteRecord | server/DataSources/csv.hpp:6704-6715 | A record as a line: a separator between any two fields, none behind the last. |
| CsvWriter.WriteAll | server/DataSources/csv.hpp:6704-6715 | The records as lines, in order. |
| CsvWriter.ReadText | server/DataSources/csv.hpp:6983-7061 | Parsing and reading any valid text gives its rows, but for a byte-order mark and swallowed blank rows. |
| CsvWriter.RoundTrip | server/DataSources/csv.hpp:6704-6788 | Writing and reading gives the records back if and only if none is without fields, none behind the first is a lone empty field, and the first field is not an unquoted one with a byte-order mark. |
| Greedy.SlowestIsLeast | client/optimizer/optimizers/heuristics.py:45-53 | The first and second slowest working stage, by rate and, among equal rates, by position in the dictionary; nothing if and only if there is none. |
| Greedy.FairStep | client/optimizer/optimizers/heuristics.py:121-126 | A worker for a slowest stage keeps fairness: every worker given was needed to keep up with the slowest. |
| Greedy.Boost | client/optimizer/optimizers/heuristics.py:117-135 | The inner loop keeps fairness, the counters and the limits, adds a worker whenever it may, and is on the way of the simple form. |
| Greedy.Allocate | client/optimizer/optimizers/heuristics.py:103-135 | Ends where the simple form does: as long as the slowest stage, the first one listed among equals, is below the bound and both sides have workers left, it gets one. So the result is fair, meets the bound or a limit, exceeds no limit, and every worker but the first of a stage was needed to reach the bound; fails with `TypeError` on exactly the stated inputs. |
| Greedy.SpreadNeeds | client/optimizer/optimizers/heuristics.py:127-135 | In the simple form no stage gets a worker beyond the bound. |
| Greedy.Frugal | client/optimizer/optimizers/heuristics.py:127-135 | Any configuration that reaches the bound at every working stage has at least as many workers at each of them. |
| Greedy.RateOfNext | client/optimizer/optimizers/heuristics.py:23-26 | Every further worker of a stage adds the scaling part of its rate, and one worker gives the base rate. |
| Greedy.Optimal | client/optimizer/optimizers/heuristics.py:107-135 | Any configuration with a strictly higher bottleneck rate has at least as many workers at every working stage, strictly more at the slowest, and more in all. |
| Optimizer.FindBestConfig | client/optimizer/optimizers/heuristics.py:64-156 | Gives a plan unless the allocation fails; the plan is that of a finished allocation, and both pipelines meet their conditions with its pools. |
| Optimizer.PlanRuns | client/optimizer/optimizers/heuristics.py:137-146 | Pools of three buffers per worker make both pipelines run, for every staffing. |
| Optimizer.NetworkedIs | client/optimizer/optimizers/heuristics.py:137-140 | The network stages get the larger of their numbers of workers, but at most two, and no other stage changes. |
| Layout.AddressesAgree | client/Sinks/CSVSink/CSVSink.cpp:188-223 | The client's independently computed cell addresses equal the server's, in both formats. |
| Layout.CellInside | server/DataSources/CSVReader/CSVReader.cpp:488-501 | Every cell lies within the header's total size, also in a partly filled last buffer. |
| Layout.CellsApart | server/DataSources/CSVReader/CSVReader.cpp:409-422 | Different cells do not overlap. |
| TupleBuffer.StoreCell | server/DataSources/deserializers.h:12-36 | Writes the cell at its place and nothing else. |
| TupleBuffer.FilledStep | server/DataSources/CSVReader/CSVReader.cpp:409-422 | Writing the next cell in order keeps all earlier ones. |
| TupleBuffer.StoreTuples | server/DataSources/CSVReader/CSVReader.cpp:385-428 | Afterwards every cell of every tuple is in its place. |
| TupleBuffer.LoadTuples | client/Sinks/CSVSink/CSVSink.cpp:198-231 | Reading at the client's addresses gives exactly the tuples written. |
| RowCodec.ParseIntIsExact | server/DataSources/deserializers.h:12-17 | A number is read if and only if the text begins with an optional minus sign and digits whose value fits, whatever follows them; it is that value. |
| RowCodec.ParseFormatted | server/DataSources/deserializers.h:12-17 | Reading a printed `int` gives it back. |
| RowCodec.DecodeEncoded | client/Sinks/CSVSink/CSVSink.h:33-39 | The four bytes of an `int` give it back. |
| RowCodec.EncodedBytes | server/DataSources/deserializers.h:12-17 | They are its digits to the base 256 in two's complement, lowest first. |
| RowCodec.FieldComesBack | server/DataSources/deserializers.h:12-36 | Any field that fits comes back as the number it begins with, its first character, or its text up to a zero. |
| RowCodec.CanonicalCell | server/DataSources/deserializers.h:12-17 | For canonical fields the uninitialised value is never copied. |
| RowCodec.CellRoundTrip | client/Sinks/CSVSink/CSVSink.h:32-71 | A canonical field survives the way through its cell: `int`, character, or padded string. |
| RowCodec.DeserializeInto | server/DataSources/deserializers.h:12-36 | The cell of any field that fits is written in place: number (or what was there), character, or text padded with zeros. |
| RowCodec.StorePadded | server/DataSources/deserializers.h:33-36 | Clearing, then copying, leaves the text followed by zeros. |
| RowCodec.StrChr | server/DataSources/CSVReader/CSVReader.cpp:398-400 | Finds the end of the field. |
| RowCodec.FindField | server/DataSources/CSVReader/CSVReader.cpp:398-405 | The next field of the line, which may be any text without its separator, is between the cursor and the separator found, and the cursor moves to the field behind it. |
| RowCodec.PlaceField | server/DataSources/CSVReader/CSVReader.cpp:407-416 | The field's cell, also that of a malformed number, is put where it belongs and all earlier cells stay. |
| RowCodec.NextField | server/DataSources/CSVReader/CSVReader.cpp:392-425 | One round of the tokenising loop. |
| RowCodec.DeserializeLine | server/DataSources/CSVReader/CSVReader.cpp:392-428 | A line is consumed to its end and becomes the next tuple. |
| CsvDeserializer.DeserializeNext | server/DataSources/CSVReader/CSVReader.cpp:385-445 | A line becomes the next tuple of the current output buffer; a full buffer is pushed with its header, and work goes on in another. |
| CsvDeserializer.DeserializePayload | server/DataSources/CSVReader/CSVReader.cpp:385-445 | All lines of an input buffer become tuples, over as many output buffers as that takes. |
| CsvDeserializer.DeserializeAll | server/DataSources/CSVReader/CSVReader.cpp:376-508 | The payloads' lines become tuples, all of them and in order, cell by cell at the server's addresses; output buffers are filled across payloads, all but the last are full, none is empty, and their headers give tuple count and size. |
| CsvSink.SerializeInto | client/Sinks/CSVSink/CSVSink.h:32-71 | The text of the cell and the separator are written, nothing else, and their length is returned; tells exactly when this would leave the buffer. |
| CsvSink.SerializeCell | client/Sinks/CSVSink/CSVSink.cpp:218-230 | Reading a cell and writing its text appends the original field and its separator, unless they go beyond the buffer. |
| CsvSink.SerializeNext | client/Sinks/CSVSink/CSVSink.cpp:218-230 | One round of the loop over the attributes. |
| CsvSink.SerializeTuple | client/Sinks/CSVSink/CSVSink.cpp:218-231 | A tuple is written as its original line, unless that line goes beyond the buffer. |
| CsvSink.LineWithin | client/Sinks/CSVSink/CSVSink.cpp:60-83 | No line of a tuple is longer than the pessimistic size. |
| CsvSink.MaxIsAttained | client/Sinks/CSVSink/CSVSink.cpp:60-83 | And for every schema without doubles some line is just as long. |
| CsvSink.PerBufferIsMost | client/xdbc/RuntimeEnv.h:121-127 | A buffer takes as many tuples as there is room for. |
| CsvSink.PoolBuffer.constructor | client/xdbc/xclient.cpp:52-53 | A new pool buffer of the given size with an empty payload. |
| CsvSink.PoolBuffer.Assign | client/Sinks/CSVSink/CSVSink.cpp:211-211 | Assigning a buffer copies its header and bytes. |
| CsvSink.MakeRoom | client/Sinks/CSVSink/CSVSink.cpp:199-216 | A full buffer is pushed under its id and a further one fetched, after which writing starts again at the head of the first. |
| CsvSink.SerializeTuples | client/Sinks/CSVSink/CSVSink.cpp:182-245 | For the tuples of one input buffer: some write leaves its buffer if and only if a line goes beyond the room of the buffer that the comparison puts it into; otherwise the ids pushed are those taken, and the first buffer holds the lines since the last one was taken. |
| CsvSink.KeptIsAll | client/Sinks/CSVSink/CSVSink.cpp:198-216 | Those lines are the end of the text, and all of it if and only if after every line but the last the longest possible one still fits. |
| CsvSink.OverrunsFirst | client/Sinks/CSVSink/CSVSink.cpp:199-231 | Until a further buffer is taken, line k goes beyond the room if and only if lines 0 to k together are longer than that. |
| CsvSink.RoomyNeverOverruns | client/Sinks/CSVSink/CSVSink.cpp:199-231 | A buffer with at least its nominal size, and that at least the longest line, is never left. |
| CsvSink.DividedNeverOverruns | client/xdbc/RuntimeEnv.h:121-127 | So no write leaves a pool buffer if the tuple size divides the buffer size. |
| CsvSink.LongLineOverruns | client/xdbc/xclient.cpp:52-53 | A schema and a table for which one does. |
| CsvTransfer.WriteBuffers | client/Sinks/CSVSink/CSVSink.cpp:342-362 | The writer appends the payloads of the buffers whose ids it pops, in order. |
| CsvTransfer.SinkBuffer | client/Sinks/CSVSink/CSVSink.cpp:182-362 | What the writer makes of the buffers pushed for one input buffer: the lines since the last one was taken, then what the further buffers held before. |
| CsvTransfer.KeptOfAll | client/Sinks/CSVSink/CSVSink.cpp:198-245 | Over all buffers, everything comes through if and only if one buffer was enough for each. |
| CsvTransfer.Transfer | server/DataSources/CSVReader/CSVReader.cpp:376-508 | Text to tuples to text, over any number of input and output buffers, in either format, for canonical lines: no write leaves a buffer if and only if no buffer of tuples overruns, and the output is the input if and only if one buffer is enough for the text of each. |
| CsvTransfer.CopyFile | server/DataSources/CSVReader/CSVReader.cpp:205-274 | From the lines of a file over packing, deserializing, serializing and writing: the same equivalences, with the lines that fit a buffer. |
| Packing.MakeParts | server/DataSources/CSVReader/CSVReader.cpp:123-140 | The queue holds the partitions, the last one first. |
| Packing.ReadPart | server/DataSources/CSVReader/CSVReader.cpp:218-258 | Skipping and reading line by line gives the lines of the partition that the file has. |
| Packing.PartsTile | server/DataSources/CSVReader/CSVReader.cpp:123-140 | The partitions' lines, in order, are the file's lines: none twice, none missing, for any number of partitions. |
| Packing.PartSizeIsLeast | server/DataSources/CSVReader/CSVReader.cpp:123-140 | The size of the partitions is the least with which they have room for all rows. |
| Packing.PackLines | server/DataSources/CSVReader/CSVReader.cpp:218-274 | Some copy leaves its buffer if and only if some line is longer than the payload; otherwise the buffers hold the lines in order, none split, with the right counts, and none is pushed before the next line does not fit. |
| Packing.ChunksFlat | server/DataSources/CSVReader/CSVReader.cpp:385-508 | The division of the tuples into output buffers has all of them, in order. |
| Packing.ChunksTight | server/DataSources/CSVReader/CSVReader.cpp:430-501 | All buffers but the last are full and none is empty. |
| Packing.TightIsUnique | server/DataSources/CSVReader/CSVReader.cpp:430-445 | What the output buffers hold is determined by the tuples: only one division has all buffers but the last full and none empty. |

## Left out

- Sockets, files, logging, profiling and metrics: the network is a channel that does not fail, a file is its text.
- The codecs (zstd, snappy, lzo, lz4, zlib, FastPFor, fpzip): in the pipeline a codec moves the tuples of one buffer
  to another or fails; what the bytes are is not modelled.
- Pipeline: whether a line still fits a buffer, whether a codec succeeds and whether a received buffer is compressed
  is left to choice, so the results hold for all line lengths and contents.
- Queue.CustomQueue.Push: models one evaluation of the waiting condition under the lock; the mutex and the condition
  variables are not modelled, a blocked call is a step that is not enabled.
- Queue.CustomQueue.Pop: likewise.
- Deployment.ServerDelivers: supposes that no deserializer used -1 as a buffer; when that cannot happen is
  `PipelineRace.DeserializerSafety`.
- Arrow and Parquet (formats 3 and 4), and the text of doubles, which `%.2f` shortens by design.
- Several partitions for one reader thread: the line counter is reset without rewinding the file.
- CsvSink.SerializeTuples: stops at the first write that would leave the buffer; what such a write destroys is not
  modelled. The writers read when all tuples of an input buffer have been written; an earlier one finds an earlier state.
- Deployment.ClientDelivers: a serializer's tuples move into the buffer meant for them; where it takes a further one
  in the middle of an input buffer, the code writes them to the first, which is what `CsvSink.KeptIsAll` is about.
- PipelineFilled.NothingLost: that received buffers hold tuples is a supposition, part of the role `Source(true)`.
- Pools with fewer buffers than threads: the constructors log an error and go on.
- PipelineReaders.BuffersInOrder: for pipelines whose third stage does not repack, as on server and client; a reader's
  tuples are told apart by the tuples themselves.
- CsvOpenFile.ReadAllUnended: where the parser reports the end too early, only that not all rows have been read.
- RowCodec.DeserializeInto: doubles are not modelled, and the field has to fit its cell; the source copies any length.
- RowCodec.StrChr: supposes that the separator is there, as the source does.
- CsvTransfer.Transfer: one thread for each stage, a buffer holds at least one tuple, and the sink's pool has not been
  used before; what the further buffers hold otherwise is behind the lines in the file (`CsvTransfer.SinkBuffer`).
- The Eisel-Lemire fast path and its table of powers: its guess is a parameter, and that it brackets the value is a
  hypothesis where the exponent is negative.
- SlowPath.ReadSlowly: exponents are unbounded integers; the source's 32-bit ones do not overflow in the range of
  the fast path. A failed assertion on capacity is the result `ok == false`, shown not to occur there.
- The build with 32-bit limbs, single precision, and wide characters.
- CSV: trimming of spaces, CR LF files in windows, `StreamParser`, type inference, column names, and the writer's
  variant that quotes everything.
- CsvMmap.ReadAll: supposes that every row fits into a window; what a caller does about a longer one is not modelled.
- CsvReader.Parser.ReadField: without the trimming of spaces, which is off unless a caller asks for it.
- The optimizer's upper bound and its adjustment by the compression ratio (the bound is a parameter), the start
  configuration and all printing; Python's floats are reals.
- The ClickHouse and PostgreSQL readers and sinks, the brute-force optimizer, experiment scripts and plots: plumbing
  or easier duplicates.
