# Verified models of the proxy's concurrent core, CRC algebra and client framing

The repository is an MTProto proxy server written in C, with a C client library for its
"Type3" transport. This project models the parts of it whose correctness cannot be read off
one function body, and proves what their designs promise:

* **The lock-free queue** (`server/common/mp-queue.c`): a linked list of circular blocks whose
  cells are claimed by ticket and settled by a double-width compare-and-swap, and a counting
  semaphore on top. `MpQueueBlock`, `MpQueue` and `MpQueueSem` are transition systems, one atomic
  memory access per step, for any number of threads and every interleaving; `MpQueueEmpty` says what
  it means that a pop returns null.
* **The job scheduler** (`server/jobs/jobs.c`): `Job` is the protocol of one job's flag word and
  reference counter; `SubclassRunner` is the claim / recheck protocol of job subclasses with its
  16-permit semaphore; `SubclassQueue` puts the real queues under it, access by access.
* **CRC algebra** (`server/common/crc32.c`): `Gf32` and `Gf64` develop arithmetic modulo the
  bit-reversed polynomials; `Crc32`, `Crc32Combine`, `Crc32Repair` and `Crc64` prove the word-sliced
  loop, the CRC of a concatenation and the single-bit repair against bit-at-a-time definitions.
  `Crc32Order` computes the order of x modulo the CRC-32 polynomial, on which the repair rests;
  `Primes` and `Digits` hold the number theory.
* **Client stream framing** (`lib/src/t3_http_stream.c`, `lib/src/t3_client_stream.c`): `HttpChunk`
  and `ClientStream`.
* **Smaller cores**: the payload splitter and the rejection samplers (`Padding`), the retry tiers
  (`Retry`), the host table (`HostTable`, with its prime sizes in `TableSizes`), streaming MD5 and HMAC
  (`Md5`), the UTF-8 check (`Utf8`).

The concurrent protocols are step functions over values: a state, the next access of one
operation, and runs that are arbitrary sequences of such accesses. Sequential code that updates
its variables, arrays or objects in place is written as methods over locals, arrays and classes,
each proved against a function of its inputs or of its old state.

`dafny verify dfyconfig.toml` checks everything.

Facts about the code that the proofs brought out:

* A request to `t3_split_plan` that passes the entry checks can end in `T3_ERR_INTERNAL` if and only
  if some number k of chunks, k + 2 of them fitting the plan, can leave a rest strictly between
  `max_chunk` and `2 * min_chunk`, or `2 * min_chunk` does not fit `size_t`; it can end in a plan if
  and only if some number of chunks can add up to the length (`Padding.SplitOutcomes`). So a length of
  30 in chunks of 10 to 15 and five slots ends either way (`Padding.EitherWay`). Chunk bounds with
  which no request can fail are exactly those with `2 * min_chunk <= max_chunk + 1`, the left side
  within `size_t` (`Padding.NeverInternal`). The comment in the code calls that exit unreachable; the
  model follows the code.
* The hashes of all ASCII names shorter than 128 bytes stay within `int` exactly for the listed table
  sizes up to 8985288; for each of the four larger ones there is a name of five bytes that overflows
  (`HostTable.HashFitsExactly`). `HostTable.LoadHosts` stops at such a name.
* The TIER2 promotion by age is five minutes of TIER2 except for a run of TIER2 that begins at clock
  reading 0, which is never promoted by age, because 0 also means "no run" (`Retry.LongRunExactly`,
  `Retry.ZeroRunStart`; inputs in `Retry.PromotionMissed`).
* The powers of x modulo the CRC-32 polynomial are distinct up to x^(2^32 - 2) and no further
  (`Crc32Order.DistinctUpToOrder`), so one flipped bit is found uniquely in every message whose bit
  count fits `int`.
* Of the asserts of the job protocol that are modelled only "unhandled JS_FINISH" can fail, and it holds in every run if
  and only if the status at creation and every status that a callback sets allow that signal
  (`Job.FinishHandledExactly`). Everything else is proved for callbacks that set any status.
* The comment on `process_incoming` promises that a chunk for which `reasm_in` has no room is tried
  again later. It is, but at the wrong place of the keystream: its text comes out if and only if the
  keystream repeats itself there (`ClientStream.RefusedChunkRetried`). A full `plain_in` loses nothing
  (`ClientStream.RoundsReturnEverything`).

## Model

| member | source | states |
|---|---|---|
| MpQueueBlock.StepKeepsInv | server/common/mp-queue.c:261-374 | Every atomic access of mpq_block_push, mpq_block_pop and mpq_fix_state keeps the invariant that ties cell indices, safe bits, the head ticket, the closed tail and the places of all operations in flight |
| MpQueueBlock.RunKeepsInv | server/common/mp-queue.c:261-374 | The block after any interleaving of any number of pushers and poppers satisfies the invariant |
| MpQueueBlock.BlockConservation | server/common/mp-queue.c:283-374 | In every run the tickets pushed are, disjointly, those popped and those whose value is still in its cell; every nonempty cell is such a value |
| MpQueueBlock.PopsAreExact | server/common/mp-queue.c:283-335 | A pop returns the value pushed under its own ticket and no two pops return the same push |
| MpQueueBlock.NothingStranded | server/common/mp-queue.c:283-335 | A stored value has a ticket still to be issued to a pop, or an in-flight pop holds exactly its ticket |
| MpQueueBlock.StepGrows | server/common/mp-queue.c:261-374 | A step never takes back a push, a pop, a ticket or the closing of the block, and leaves all other operations where they were |
| MpQueue.StepKeepsInv | server/common/mp-queue.c:443-606 | Every access of mpq_push and mpq_pop keeps the invariant of the block list: blocks before mq_head are drained, all but the last are closed, and a push goes after every push finished before it began |
| MpQueue.StepKeepsAccounted | server/common/mp-queue.c:443-606 | Every push and every pop of any block belongs to the operation that made it |
| MpQueue.RunKeepsGood | server/common/mp-queue.c:443-606 | All of that holds after any interleaving of pushes and pops |
| MpQueue.NothingLost | server/common/mp-queue.c:443-488 | A pushed value has been popped, or its ticket is held by a pop in flight, or it lies at or after mq_head with an unissued ticket: moving mq_head strands nothing |
| MpQueue.PassedBlocksAreDrained | server/common/mp-queue.c:465-486 | mq_head has moved past a block only when it is closed and every ticket pushed to it is claimed by a pop, which is what the second mpq_block_pop is for |
| MpQueue.PopsAreExact | server/common/mp-queue.c:443-488 | Every value returned is the value of one push, and no push is returned twice |
| MpQueue.FirstInFirstOut | server/common/mp-queue.c:443-606 | If push a returned before push b began, the value of b is not popped or claimed before the value of a is |
| MpQueueSem.StepKeepsInv | server/common/mp-queue.c:125-170 | Every access of the semaphore and of the queue under it keeps the balance of posts, grants and undone grants |
| MpQueueSem.RunKeepsInv | server/common/mp-queue.c:608-684 | The balance holds after any interleaving of mpq_push_w, mpq_pop_w and mpq_pop_nw |
| MpQueueSem.PermitAlwaysYields | server/common/mp-queue.c:608-671 | The asserts after the pops never fire: a pop entered with a permit that returns has returned a pushed value |
| MpQueueSem.NeverNull | server/common/mp-queue.c:608-671 | No mpq_pop entered with a permit returns null |
| MpQueueSem.PermitsFollowPushes | server/common/mp-queue.c:125-170 | Permits granted never exceed posts, posts never exceed completed pushes, and each post follows a completed push |
| MpQueueSem.PermitMeansMore | server/common/mp-queue.c:608-684 | A pop with a permit that finds its block run dry is not in the last block: if it were, every completed push would be in the hands of the other permit holders, of whom there are too few |
| MpQueueSem.EveryPushIsTaken | server/common/mp-queue.c:443-488 | When a pop finds the last block dry, every push ever stored has been popped or is claimed by another pop in flight |
| MpQueueSem.SinglePopNotRefused | server/common/mp-queue.c:158-168 | In every run whose pops are made one at a time, a pop with at least one try that begins while more pushes have been posted than permits granted is never refused, whatever pushes go on beside it |
| MpQueueEmpty.NullMeansEmpty | server/common/mp-queue.c:443-488 | For every run and every mpq_pop that returned null there is a moment inside the call at which each value ever stored had been popped or was claimed by another pop |
| Job.ActKeepsInv | server/jobs/jobs.c:603-821 | Every access of the lock, signal, reference and run operations keeps the job invariant, for a callback that may create references, set any status and return any signals but JS_FINISH |
| Job.CreatedInv | server/jobs/jobs.c:1080-1124 | A freshly created job, locked by its creator with one reference, satisfies it |
| Job.RunKeepsInv | server/jobs/jobs.c:603-821 | So does the job after any interleaving |
| Job.OneLockHolder | server/jobs/jobs.c:603-615 | At most one operation holds JF_LOCKED, and the bit is then set |
| Job.NoLostSignal | server/jobs/jobs.c:603-776 | An unlocked job with an allowed pending signal is in an execution queue, about to be pushed, just popped, or about to be locked again |
| Job.AtRestQueued | server/jobs/jobs.c:617-776 | With no operation running, such a job is queued |
| Job.CounterIsReferences | server/jobs/jobs.c:785-804 | j_refcnt is the number of references held by threads and queues, except while the last one is being given up |
| Job.FinishIsLast | server/jobs/jobs.c:628-660 | JS_FINISH runs only when its thread owns the only reference, and nothing refers to a destroyed job |
| Job.AssertsHold | server/jobs/jobs.c:617-804 | The asserts on the counter, the lock bit and a second JS_FINISH hold wherever an operation reaches them, whatever the callbacks set |
| Job.FinishHandledExactly | server/jobs/jobs.c:641-646 | For any creation status and any collection of statuses that callbacks set, the assert "unhandled JS_FINISH" holds in every run if and only if all of them allow that signal |
| SubclassRunner.StepKeepsInv | server/jobs/jobs.c:968-1029 | Every access of process_one_sublist, and of the two pushes that feed it, keeps the claim, the books of jobs and ids, and the permits |
| SubclassRunner.RunKeepsInv | server/jobs/jobs.c:968-1029 | They hold after any interleaving of any number of threads |
| SubclassRunner.OneDrainer | server/jobs/jobs.c:988-1020 | Each subclass is drained by at most one thread at a time |
| SubclassRunner.ExclusiveRunsAlone | server/jobs/jobs.c:992-1029 | While subclass -1 runs, nothing else of the class runs |
| SubclassRunner.AtMostSixteen | server/jobs/jobs.c:992-1029 | At most 16 threads run jobs of the class at once |
| SubclassRunner.PopNeverFails | server/jobs/jobs.c:1002-1008 | A thread about to pop a job finds one pushed and not taken |
| SubclassRunner.NoDeadlock | server/jobs/jobs.c:992-1029 | In every state of every run with an operation under way, some operation can move: the 16 permits cannot deadlock |
| SubclassQueue.ActKeepsInv | server/jobs/jobs.c:968-1029 | With the job queues modelled access by access, every action keeps the counters of the runner equal to the posts and grants of the queues, and pops of one queue one at a time |
| SubclassQueue.RunnerRuns | server/jobs/jobs.c:968-1029 | The runner in every such run makes a run of SubclassRunner, so its theorems hold there |
| SubclassQueue.JobIsThere | server/jobs/jobs.c:1002-1004 | assert (job) never fires: no mpq_pop_nw of a job queue is ever refused, and one that returned has returned a job that was pushed |
| SubclassRunner.NothingLeftBehind | server/jobs/jobs.c:1010-1020 | With no thread inside process_one_sublist for a subclass it is unlocked and processed_jobs equals allowed_to_run_jobs |
| SubclassRunner.AtRest | server/jobs/jobs.c:723-738 | With nothing running all permits are back and the jobs not yet run are matched one to one by ids in the class queue |
| Gf32.MulComm | server/common/crc32.c:684-695 | gf32_mul is commutative |
| Gf32.MulOne | server/common/crc32.c:684-695 | The top-bit word is its unit |
| Gf32.MulByPower | server/common/crc32.c:676-695 | Multiplying by the word for x^k is multiplying by x k times |
| Gf32.MulxInjective | server/common/crc32.c:676-682 | Multiplication by x can be undone when the polynomial has a constant term |
| Gf32.LinearExtension | server/common/crc32.c:706-716 | Linear maps that agree on single bits agree, the reason bit matrices work |
| Crc32.FourLookups | server/common/crc32.c:372 | The four table look-ups of one word multiply it by x^32 |
| Crc32.FeedWord | server/common/crc32.c:372 | Adding a little-endian word and multiplying by x^32 feeds its four bytes one bit at a time |
| Crc32.Crc32Partial | server/common/crc32.c:369-404 | The 32-byte loop and the 16/8/4/2/1 tail compute, for every length and start value, the fold of the bitwise byte step |
| Crc32Combine.MatrixTimes | server/common/crc32.c:706-716 | The loop adds up the matrix columns where the vector has a bit, stopping early at 0 |
| Crc32Combine.ApplyTimesX | server/common/crc32.c:706-716 | With the columns x^k * 2^i that product is multiplication by x^k |
| Crc32Combine.MatrixSquare | server/common/crc32.c:718-723 | Squaring the matrix of x^k in place gives the matrix of x^(2k) |
| Crc32Combine.ComputePowers | server/common/crc32.c:725-736 | Block n of the table is the matrix of x^(2^n), and the final assert holds |
| Crc32Combine.CombineLoop | server/common/crc32.c:755-764 | The loop over the length's binary digits multiplies by x^(8 * length) |
| Crc32Combine.Combiner.Combine | server/common/crc32.c:796-809 | With its lazily made table it multiplies the first CRC by x^(8 * len2) and adds the second; lengths up to 0 return the first |
| Crc32Combine.CrcOfConcatenation | server/common/crc32.c:796-809 | That value is the CRC of the concatenation, for all byte strings |
| Crc32Repair.Gf32Mul | server/common/crc32.c:684-695 | The 32-turn loop is the product |
| Crc32Repair.MulAssoc | server/common/crc32.c:684-695 | gf32_mul is associative |
| Crc32Repair.Gf32Pow | server/common/crc32.c:697-704 | Repeated squaring gives the k-fold product |
| Crc32Repair.RaiseInverse | server/common/crc32.c:973-975 | x^r undoes the r-th power of the constant 0xdb710641 |
| Crc32Repair.MakeTable | server/common/crc32.c:965-974 | The sorted table holds exactly x^0 .. x^(r-1) with their exponents |
| Crc32Repair.Search | server/common/crc32.c:986-990 | The binary search splits the sorted table at x |
| Crc32Repair.DivisionUndone | server/common/crc32.c:977-981 | The matrix A divides by x^r |
| Crc32Repair.FindCorruptedBit | server/common/crc32.c:959-999 | A result k >= 0 has x^k equal to the difference; -1 means no exponent below the bit length has; up to 2^32 - 1 bits the result is the only such exponent |
| Crc32Repair.FlipChangesCrc | server/common/crc32.c:1001-1019 | Flipping bit j of byte i of an l-byte message adds x^(8 (l - i) + 31 - j) to its CRC |
| Crc32Repair.RepairBit | server/common/crc32.c:1001-1019 | The bit of exponent k is flipped, or the result says that k is negative, before the message, or in the CRC |
| Crc32Repair.RepairWorks | server/common/crc32.c:1021-1033 | Flipping the bit found makes the CRC match |
| Crc32Repair.CheckAndRepair | server/common/crc32.c:1021-1048 | The result, the message and the stored CRC after a call relate as the return values promise; the assert after a repair never fires, the final one fires exactly with force_exit on an unrepairable message |
| Crc32Repair.FlippedBitIsRestored | server/common/crc32.c:1021-1033 | One flipped bit in a message of up to 2^32 - 1 bits, CRC included, is restored exactly (return 1) |
| Crc32Repair.FlippedCrcIsCorrected | server/common/crc32.c:1038-1044 | One flipped bit of the stored CRC, next to a message of up to 2^32 - 1 bits with it, is corrected and the message left alone (return 2) |
| Crc32Order.DecidingPowers | server/common/crc32.c:676-695 | x^(2^32 - 1) is 1, and no x^((2^32 - 1) / p) is, for the five primes p of 2^32 - 1 |
| Crc32Order.DistinctUpToOrder | server/common/crc32.c:959-999 | The powers x^0 .. x^(n-1) the search tells apart are distinct if and only if n <= 2^32 - 1 |
| Gf64.MulComm | server/common/crc32.c:849-860 | gf64_mul is commutative |
| Gf64.MulByPower | server/common/crc32.c:841-860 | Multiplying by the word for x^k is multiplying by x k times |
| Crc64.Crc64FeedByte | server/common/crc32.c:617-619 | One table look-up is eight steps of one bit |
| Crc64.Crc64Partial | server/common/crc32.c:621-627 | The one-table loop is the fold of the bitwise byte step |
| Crc64.Gf64Mul | server/common/crc32.c:849-860 | The 64-turn loop is the product |
| Crc64.InitPowerBuf | server/common/crc32.c:862-887 | The odd entries are x^(8 * 2^n - 1), the even ones x^64 times that, and all ten asserts at the end hold |
| Crc64.ConstantsArePowers | server/common/crc32.c:421-425 | The five literal constants are x^95, x^127, x^191, x^255 and x^319 |
| Crc64.Combiner.Combine | server/common/crc32.c:919-941 | Starting at the lowest set digit of the length, the loop multiplies the first CRC by x^(8 * length) and adds the second |
| Crc64.CrcOfConcatenation | server/common/crc32.c:919-941 | That value is the CRC of the concatenation |
| HttpChunk.HexRoundTrip | lib/src/t3_http_stream.c:24-70 | The hexadecimal form of a number reads back as the number |
| HttpChunk.SizeToHex | lib/src/t3_http_stream.c:54-70 | The buffer gets the digits, most significant first, without leading zeros |
| HttpChunk.HexToSize | lib/src/t3_http_stream.c:24-48 | Accepted exactly when nonempty, all digits and at most SIZE_MAX, and then its value |
| HttpChunk.ChunkWrite | lib/src/t3_http_stream.c:72-97 | Exactly the chunk is written and nothing after it; too small a buffer is left alone |
| HttpChunk.ChunkParse | lib/src/t3_http_stream.c:111-198 | The scanning loops and checks compute the parse of the first chunk, extensions and terminal chunk included |
| HttpChunk.ParseInvertsWrite | lib/src/t3_http_stream.c:72-198 | A written chunk of 1 to 65535 bytes parses to its data, whatever follows it |
| HttpChunk.PartAsksForMore | lib/src/t3_http_stream.c:111-198 | Every proper prefix of a written chunk asks for more bytes |
| HttpChunk.ParseIsStable | lib/src/t3_http_stream.c:111-198 | A successful parse is unchanged by bytes that arrive later |
| HttpChunk.TerminalParses | lib/src/t3_http_stream.c:99-176 | The terminal chunk is recognised |
| ClientStream.CryptTwice | lib/src/t3_client_stream.c:539-542 | Decrypting at the position of encryption gives the text back |
| ClientStream.Stream.ProcessIncoming | lib/src/t3_client_stream.c:511-593 | The two nested loops have the effect of the two layers applied one after the other, backpressure included |
| ClientStream.Stream.ClientWrite | lib/src/t3_client_stream.c:702-761 | One message becomes one encrypted chunk at the end of the output, and the cipher position moves by its length |
| ClientStream.Stream.ClientRead | lib/src/t3_client_stream.c:767-804 | When plain_in holds whole frames, the first message is returned and the others stay, or nothing happens if there is none or it does not fit the buffer |
| ClientStream.ArriveStands | lib/src/t3_client_stream.c:691-695 | Pumping any piece of the wire bytes into a stream keeps its rings at a point between the messages read, those waiting and the bytes still to come |
| ClientStream.DeframeMidway | lib/src/t3_client_stream.c:512-553 | In the middle of any stream every complete chunk comes off, decrypted at the right place, and an incomplete one stays |
| ClientStream.UnpackMidway | lib/src/t3_client_stream.c:555-592 | Every complete message moves on, wherever the chunk boundaries fell, as far as plain_in has room; the others stay |
| ClientStream.ReadIsNext | lib/src/t3_client_stream.c:767-804 | A read returns exactly the next message, or nothing when there is none or it does not fit |
| ClientStream.ReadsAreSentMessages | lib/src/t3_client_stream.c:511-804 | For every fragmentation and every interleaving of reads, a full plain_in included, what has been read is a beginning of what was sent |
| ClientStream.EveryMessageArrives | lib/src/t3_client_stream.c:511-804 | Once all bytes have arrived every message is read or waits, whole and in order, in plain_in or behind it in reasm_in, and nothing else is left; up to 8 MiB none waits in reasm_in |
| ClientStream.ReadsReturnEverything | lib/src/t3_client_stream.c:767-804 | If none waits in reasm_in, one read per message returns them all, in order |
| ClientStream.RoundsReturnEverything | lib/src/t3_client_stream.c:585-804 | What plain_in had no room for a later pump delivers: one pump and one read per message return them all, in order |
| ClientStream.RefusedChunkRetried | lib/src/t3_client_stream.c:537-553 | A chunk refused by a full reasm_in is decrypted at a later place when it is tried again; its text comes out if and only if the keystream is the same at both places |
| ClientStream.NothingRefused | lib/src/t3_client_stream.c:127-135 | Neither in_ring nor reasm_in refuses an append before 8 MiB have come in |
| ClientStream.OneChunkPerMessage | lib/src/t3_client_stream.c:702-753 | The frames of messages of 4 to 65531 bytes, padding included, fit one chunk each and their concatenation is the plain text of the stream |
| ClientStream.SendAll | lib/src/t3_client_stream.c:702-763 | One t3_client_write and flush after the other: the bytes that went out and those still in out_ring are exactly the wire form of all messages, unless out_ring was too full for one; it never is up to 8 MiB in all, nor when the network keeps up |
| ClientStream.Serve | lib/src/t3_client_stream.c:691-804 | Pumping and reading in any order on a stream object is the run of the receiving state machine |
| ClientStream.Exchange | lib/src/t3_client_stream.c:511-804 | From calls of t3_client_write to calls of t3_client_read, for messages of any total length: for every cutting, flushing and interleaving the messages read are a beginning of those written, and all of them once all bytes are in, as long as in_ring and reasm_in refused nothing |
| ClientStream.WireAppend | lib/src/t3_client_stream.c:745-753 | Appending the next encrypted chunk extends the wire form of what was sent before |
| Padding.ExactlyUniform | lib/src/t3_padding.c:29-46 | Every value of the range is chosen by exactly bucket_count of the generator's words |
| Padding.RngRange | lib/src/t3_padding.c:26-48 | Words are rejected until one is accepted, which chooses a value of [lo, hi]; a failing generator is reported |
| Padding.SampleUniformNs | lib/src/t3_timing.c:18-37 | The same with 64-bit words; an empty range is refused, and the full range, whose size wraps to 0, is exactly the division by zero |
| Padding.SplitPlan | lib/src/t3_padding.c:80-180 | A returned plan adds up to the length with every chunk in bounds and at most max_chunks of them; the entry errors exactly; Internal ends only requests that can fail; the result is decided by the generator as in SplitOutcomes |
| Padding.SplitOutcomes | lib/src/t3_padding.c:109-180 | For each request: some answers of the generator lead to Internal if and only if a rest strictly between max_chunk and 2 * min_chunk can be reached or 2 * min_chunk leaves size_t; some lead to a plan if and only if a plan exists |
| Padding.EitherWay | lib/src/t3_padding.c:109-180 | A length of 30 in up to five chunks of 10 to 15 can end in a plan and can end in Internal |
| Padding.NeverInternal | lib/src/t3_padding.c:151-156 | No request with these chunk bounds can end in Internal if and only if 2 * min_chunk <= max_chunk + 1 and 2 * min_chunk fits size_t |
| Padding.Bounds | lib/src/t3_padding.c:133-155 | The next chunk leaves no more than the remaining slots can cover and no less than a chunk |
| Padding.CoverCompares | lib/src/t3_padding.c:98-108 | The product capped at SIZE_MAX compares with any length as the true product does |
| Retry.RingNext | lib/src/t3_retry.c:25-45 | Evicting, dropping the oldest when full and appending turns the ring of a history into the ring of the longer history |
| Retry.RingDecides | lib/src/t3_retry.c:47-62 | Eight entries suffice to tell five closes in 30 s and three in 60 s |
| Retry.Session.RecordClose | lib/src/t3_retry.c:22-90 | The state is the tier of the whole history; a backwards clock changes nothing |
| Retry.Session.UserRetry | lib/src/t3_retry.c:70-79 | In TIER3, and only there, the history starts anew |
| Retry.Replay | lib/src/t3_retry.c:22-90 | For every run of closes and user retries the ring yields the tier of the unbounded history |
| Retry.RunIsMaximal | lib/src/t3_retry.c:51-66 | The recorded start of a TIER2 run is the first close since which the tier never was another |
| Retry.LongRunExactly | lib/src/t3_retry.c:51-53 | Promotion by age is five minutes of TIER2 if and only if the run did not begin at clock reading 0, or the five minutes are not over |
| Retry.ZeroRunStart | lib/src/t3_retry.c:51-66 | The recorded start of a TIER2 run is 0 exactly when the third close was at 0 and the tier has been TIER2 ever since |
| Retry.PromotionMissed | lib/src/t3_retry.c:51-53 | Three closes at 0 and one after five minutes fall back to TIER1; three closes at 1 and one five minutes later reach TIER3 |
| Primes.NoZeroProduct | server/common/resolver.c:122-137 | A product of two numbers below a prime is not its multiple |
| HostTable.ProbesDiffer | server/common/resolver.c:122-137 | The probe sequence of a name comes to no slot twice |
| HostTable.ProbesBound | server/common/resolver.c:129-137 | As long as the probes meet full slots there are as many full slots as probes: the search ends |
| HostTable.Table.GetHash | server/common/resolver.c:119-147 | Look-up and insertion agree with a map in which the first insertion of a name wins |
| HostTable.PickSize | server/common/resolver.c:301-310 | The smallest listed size above twice the number of words, or none |
| HostTable.LoadHosts | server/common/resolver.c:299-325 | The loaded table holds, for every word, the address of its first occurrence; there is none exactly when no listed size is large enough or a sum overflows while some word is hashed |
| TableSizes.SizesArePrime | server/common/resolver.c:43-80 | Every listed size is prime |
| HostTable.FirstWinsMeans | server/common/resolver.c:129-147 | The map gives every name the address of its first occurrence |
| HostTable.HashFitsExactly | server/common/resolver.c:122-127 | For each listed size, both hashes of every ASCII name under 128 bytes stay within int at every byte if and only if the size is at most 8985288 |
| Md5.Context.Update | server/common/md5.c:198-237 | Feeding a piece appends it to what was fed, with the byte count carried and the buffer kept |
| Md5.Counted | server/common/md5.c:208-212 | The carry test of the low count word is right |
| Md5.Context.Finish | server/common/md5.c:250-273 | The output is the block function folded over everything fed, padded as RFC 1321 says |
| Md5.PaddingLength | server/common/md5.c:263-266 | The padding fed is one set bit and zeros up to 56 modulo 64 |
| Md5.LengthBytes | server/common/md5.c:256-261 | The two length words are the low 64 bits of the bit count |
| Md5.Hash | server/common/md5.c:278-287 | md5 is the digest of its input |
| Md5.HashPieces | server/common/md5.c:198-273 | The digest does not depend on how the message is cut |
| Md5.Context.HmacStarts | server/common/md5.c:335-363 | The inner pad is fed and the outer one kept, long keys hashed first |
| Md5.Context.HmacFinish | server/common/md5.c:373-384 | The digest of the outer pad and the inner digest |
| Md5.HmacPieces | server/common/md5.c:335-400 | The three functions compute section 2 of RFC 2104, for text in any pieces |
| Utf8.Validate | lib/src/t3_secret.c:36-65 | Accepted if and only if the bytes encode, per section 3 of RFC 3629, a text of scalar values without U+0000..U+001F and U+007F |
| Utf8.Step | lib/src/t3_secret.c:38-63 | The byte tests accept exactly a complete, shortest, allowed character |
| Utf8.TextStep | lib/src/t3_secret.c:36-65 | A text is empty, or one character and a text |

## Left out

- mp-queue block reclamation: hazard pointers, the garbage and prepared-block lists and free; blocks are never reused, and `mpq_is_empty` is not modelled.
- mp-queue machine limits: tickets are unbounded and memory is sequentially consistent; the futex wait may end at any time, and its waiter counter carries no promise.
- mp-queue read order: where the source reads two fields without ordering them, the model fixes one order, except in the recheck of `SubclassRunner`, where both are allowed.
- Job.RunKeepsInv: subclasses, class reconfiguration, timers, job lists, message queues, statistics and OS signals; two plain `|=` on the flag word are one step each: that of `schedule_job`, which is what its read and write come to when nobody else touches the word between them, and that of `unlock_job` for JS_FINISH, whose thread has the only reference; callbacks never return JOB_FINISH.
- SubclassRunner.RunKeepsInv: counters are unbounded; the class queue of ids is a counter of completed pushes, also in `SubclassQueue`, and all threads of a run share one class.
- Concurrency is modelled on values, not on objects shared by methods: Dafny methods run alone.
- crc32.c CLMUL paths and their constants, the literal tables (tables are given by their recurrence) and crc32c.c, which repeats the algorithm with another polynomial.
- Crc32Repair.FindCorruptedBit: `qsort` is a sort of the model's own and `sqrt` an exact integer rounding; sizes whose bit count overflows int are outside.
- Crc32Combine.Combiner.Combine, Crc64.Combiner.Combine: the length is below 2^63, as int64_t requires.
- Client stream: WebSocket mode, TLS, sockets, the HTTP header exchange, the obfuscation handshake and AES itself (a keystream function of position); ring offsets and compaction (rings are bounded byte sequences).
- ClientStream.EveryMessageArrives: assumes that in_ring and reasm_in refused no append, because what they refuse is lost or garbled (`ClientStream.RefusedChunkRetried`); `ClientStream.NothingRefused` says when that cannot happen. Messages whose wire length is under 4 are outside, as the receiver rejects them.
- Padding.RngRange, Padding.SampleUniformNs: a rejection loop may run forever on a hostile generator; the tape of the model is finite and ends in Pending.
- Padding.SplitOutcomes: `max_chunk - min_chunk` is below 2^32 - 1, the sampler's own precondition; beyond it `Padding.SplitPlan` still holds, with a sampler that never returns on a range it cannot cover.
- HostTable.LoadHosts: parsing of the hosts file is left out and names are ASCII; nothing is said of a table after an overflow, which C leaves undefined.
- Md5.Hash: the block function is arbitrary; `md5_file` and `md5_hex` are left out.
- t3_secret.c beyond the byte check, t3_padding_generate, and everything in the repository that is I/O, configuration or presentation.
