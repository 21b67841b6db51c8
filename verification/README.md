# FastLog: verification model

FastLog logs the memory accesses of instrumented threads. Each thread appends 64-bit
events to its own event buffer through a cached reference (a `Ref`), without any lock. When
a buffer is full its thread advances the epoch: it sets the buffer pointers of all threads
of the epoch to NULL and hands their buffers to a worker thread. The other threads notice
only when they next load their pointer, so for a while they go on writing to buffers that
were taken from them. This project models that protocol, the logging loops and the event
layouts, and proves what they keep.

## How the model is built

| file | content |
|---|---|
| `Protocol.dfy` | the protocol as a labelled transition system, for any number of threads and workers; a run is the sequence of its labels |
| `Bookkeeping.dfy` | the invariant of all runs: lists, pointers, epochs, batches |
| `Ownership.dfy` | the invariant of drop-free runs: who may write to which buffer |
| `Safety.dfy` | no writer is left behind; the assertions of the code; the bound of a buffer |
| `Trace.dfy`, `EpochTrace.dfy`, `Conservation.dfy`, `Decoding.dfy` | nothing is lost: words, words of each epoch and what workers read of them, counts, decoded accesses |
| `Pool.dfy`, `PoolOrder.dfy` | where every buffer is; in what order they are handed out; memory bound; epochs, batches and coordinators |
| `Progress.dfy` | why a worker's wait ends; how stale a thread can be |
| `Switches.dfy`, `Overruns.dfy` | when the assertion of `updateLogBuffer` fails, and how far a thread stores, on runs of any kind |
| `Hazards.dfy`, `SkipWitness.dfy`, `Witnesses.dfy`, `OverrunWitness.dfy` | what goes wrong without the two hypotheses below, and runs that show it |
| `Calls.dfy`, `Loops.dfy`, `Uninterrupted.dfy` | a whole call, loop, use of a Ref or worker run in one piece, that the protocol's steps do the same, and what is in the buffer afterwards |
| `EventBuffers.dfy`, `Managers.dfy`, `BufManagerLog.dfy` | the objects and methods of the buffer-manager path, with heap and loops, proved against `Protocol` and `Calls` |
| `Multiples.dfy`, `Rings.dfy`, `Loggers.dfy`, `Drivers.dfy` | the logging loops that check for a full buffer only at a moving deadline, against a plain ring; the methods that run them; a driver thread, from its new buffer to the accesses its slots show |
| `Timestamps.dfy` | the countdown timestamps of `local_writes_benchmarks.cc` |
| `Packing.dfy` | the event layouts and what can be decoded |

A method of `BufferManager` holds the manager's mutex throughout, so each call of one is one
step. Every unlocked access to memory that another thread may look at is a step of its own:
loading the pointer, storing an event, counting it, each half of the write-back, setting
`closed`, adopting the new buffer, each poll and each read of a worker. `logs`, `lastEpoch`,
`issued`, `owners`, `seen`, `dropped` and `orphaned` are history that no step depends on.
What a new buffer finds in its storage is a parameter. The constants MAX_EVENTS (at least 2),
BATCH_SIZE (at least 1) and MAX_WORKERS are parameters too.

The code relies on two hypotheses, which are predicates on runs:

* `DropFree`: no successful `tryIncEpoch` found too many workers (BufferManager.cc:104-108,
  where a batch goes back to the pool although its threads may still write to it);
* `OrphanFree`: `getLogBufferRef` was not entered with a NULL pointer by a thread whose
  previous buffer is still open (Context.h:40-43 allocates without closing it). Only the
  results about a worker's progress need it.

One Ref at a time for a thread, destroyed before `threadExit`, is built into the steps, as
in Main.cc:607-616.

## What was found

* The branch for too many workers breaks an assertion of the code: for every choice of the
  constants a run with a single thread ends in `curBuf != logBuf` failing
  (`SkipWitness.AssertionCanFail`). On any run it fails if and only if the thread that writes
  back entered its latest `allocBuffer` while the next buffer to be handed out was the one
  its own Ref is on (`Switches.UpdateFailsIff`), and that needs a batch to have been dropped
  before (`Switches.OwnNextNeedsDrop`). For a call that nobody interrupts the condition can be
  read off before the call (`Uninterrupted.CallFaultsIff`). A coordinator that drops a batch
  and switches at once fails exactly if its own buffer was the last one taken in the epoch,
  and otherwise shares the buffer it gets unless that buffer's owner has exited
  (`Hazards.SkipSafeIff`, `Witnesses.SharingCanArise`); if others step in between, a
  bystander can fail instead (`Witnesses.BystanderCanFail`).
* After a dropped batch the bound of a buffer fails as well. A full thread writes its count
  back into a buffer that another thread has been handed already; a Ref built on that count
  stores one event past it and is full again. For every choice of the constants enough
  rounds of this store past the end of the storage (`OverrunWitness.StorageCanOverrun`). On
  any run a store is past LastIndex if and only if it is the first one of a Ref that was made
  on a count past LastIndex (`Overruns.StorePastIff`), and the storage is overrun if and only
  if that count is at its end or past it (`Overruns.OverrunIff`). The count at which a Ref
  proposes the end of the epoch is a function of the count and the deadline it was made on
  (`Overruns.RefRange`).
* A Ref built on a NULL pointer by a thread that had a buffer before always orphans that
  buffer, and its worker waits for ever (`Hazards.RebuildOrphans`, `Hazards.OrphanWaitsForever`).
  With two threads and room for a worker it happens (`Witnesses.OrphanCanArise`). Once every
  place is taken by such a worker, each epoch that ends has its batch dropped
  (`Hazards.StuckWorkersDrop`).
* The layout documented in LoggerConsts.h:8-12 loses the source location of every access
  whose value byte is 128 or more, since the conversion to a signed `char` copies its sign
  over the location bits (`Packing.FullExactIff`). The model follows the code.
* The prefetching variant restarts its deadline one batch late. It keeps the period of the
  other variant exactly if MAX_EVENTS > BATCH_SIZE + 1 (`Rings.PrefetchRegularIff`).
* Between closing its old buffer and adopting the new one, a thread's Ref still names the
  old buffer, which may have been recycled already (`Witnesses.RefsCanCoincide`). Refs of
  distinct threads are therefore distinct only while neither is at that point
  (`Safety.RefsApart`); `Safety.CanReach` counts those, the
  pointers, the contexts and the buffer a thread is about to adopt.
* DesignNotes.adoc:35 calls the buffer manager a singleton, Context.cc:4 declares it
  `thread_local`. The model has one manager for any number of threads; the declaration is
  its instance with one thread.

## Model

| member | source | states |
|---|---|---|
| `Safety.NoWriterLeft` | BufferManager.cc:26-114 | On every drop-free run, a buffer that is closed, free, or past a worker's wait is out of reach of every thread (Ref, pointer, context, or a switch under way), and no two threads reach the same buffer |
| `Safety.RefsApart` | EventBuffer.h:47-53 | On drop-free runs two Refs in scope are on one buffer only if one of them has closed it and not adopted its new one yet |
| `Witnesses.RefsCanCoincide` | EventBuffer.h:47-53 | With room for a worker there is a drop-free run where that is so |
| `Safety.HeldStep` | Worker.h:11-23 | On drop-free runs no step of anyone changes a closed buffer that a worker holds, or takes it from the worker, until that worker releases it |
| `Safety.WorkerReadsStable` | Worker.h:15-23 | Over any stretch of a drop-free run without the release, what the worker finds in a closed buffer stays the same |
| `Safety.AllocAssertionHolds` | BufferManager.cc:29 | On every run, dropped batches or not, the caller's pointer is NULL at each call of allocBuffer, from getLogBufferRef and from both branches of the slow path |
| `Safety.NoFault` | EventBuffer.h:45 | On drop-free runs no assertion fails, `curBuf != logBuf` included, and no event is stored past the storage |
| `Safety.FullExactly` | Main.cc:577-601 | On drop-free runs the deadline is always the first multiple of the batch at or past the count (and at least one batch), every store index is at most B*ceil((M-1)/B) <= M+B-2, and the epoch is proposed exactly at one event more, across Refs and switches |
| `Overruns.RefRange` | Main.cc:577-601 | On every run, a Ref made on count e and deadline d stores from e on, only below a count given in closed form by e and d, and proposes the end of the epoch exactly at that count; it is LastIndex + 1 if e <= d, and never more than that unless it is e + 1 |
| `Overruns.StorePastIff` | Main.cc:598-601 | On every run, a store is past a limit at or past LastIndex if and only if it is the first of a Ref that was made on a count past that limit |
| `Overruns.OverrunIff` | EventBuffer.h:109 | On every run, a store past the storage is what stops it if and only if the last step is the first store of a Ref that was made on a count at or past the capacity |
| `Overruns.OverrunNeedsDrop` | BufferManager.cc:104-108 | That needs a batch to have been dropped |
| `OverrunWitness.StorageCanOverrun` | EventBuffer.h:48 | For every valid choice of constants there is a run that ends in it, without any Ref built on a NULL pointer by a thread that had an open buffer |
| `Safety.SourceFullAt` | EventBuffer.h:88-97 | For the constants of the source that is at 10,000,001 events |
| `Trace.TracePreserved` | Main.cc:562-616 | On drop-free runs the words a thread loaded a non-NULL pointer for are, in order, what workers and buffers hold of its buffers, epoch by epoch, followed by the one event in hand |
| `Trace.BufferHoldsLog` | EventBuffer.h:21-56 | A buffer outside the pool holds below its count (the live Ref's, if there is one) exactly the words its thread logged in its epoch |
| `EpochTrace.EpochPreserved` | Main.cc:562-616 | The same for each epoch by itself: the words the labels say a thread loaded a non-NULL pointer for in that epoch are its record of it, with the worker or in the buffer, followed by the event in hand if it is one of that epoch |
| `EpochTrace.WorkerSawEverything` | Worker.h:15-20 | Whatever worker w has read of an owner's buffer is, by the labels of the run, all that owner logged in epoch w; every thread that logged in epoch w is an owner; a finished worker has read all its owners, and its sum is the number of those words |
| `EpochTrace.ReadIsFinal` | Worker.h:11-18 | What a worker has read stays, and however the run goes on its owner adds nothing to that epoch |
| `Decoding.RecordsDecode` | Main.cc:590-599 | End to end: the records of a thread decode to its accesses, in order |
| `Conservation.CountsConserved` | Worker.h:15-23 | On drop-free runs the sums of the finished workers plus the counts in all unreleased buffers (a live Ref's where there is one) equal the events counted by all threads |
| `Conservation.CountedIsLogged` | Main.cc:600 | The number of counted events, taken from the labels of the run, is what the threads logged |
| `Pool.OnePlaceEach` | BufferManager.cc:31-47 | On every run each buffer created is exactly once in the allocated list, the pool, or one in-flight batch |
| `Pool.ActiveWorkersExact` | BufferManager.cc:60-67 | `activeWorkers` is the number of unreleased batches, between 0 and MAX_WORKERS |
| `Pool.HeldKept` | BufferManager.cc:36-41 | On every run, no step re-opens, re-assigns or re-labels a buffer that a worker holds |
| `Pool.CreatedIsPeak` | BufferManager.cc:33-38 | The number of buffers ever created is the peak of allocated plus held by workers |
| `Pool.MemoryBound` | BufferManager.h:57 | With at most T participants in any epoch, at most T*(MAX_WORKERS+1) buffers are ever created |
| `Pool.BatchIsEpoch` | BufferManager.cc:84-114 | A batch holds the buffers of one epoch, one for each thread that took part in it; no two batches are of the same epoch |
| `PoolOrder.ReleaseOrder` | BufferManager.cc:60-67 | After a worker's release the old pool is still there with the batch on top: with nothing returned in between the batch is handed out from its last buffer to its first, then the old pool from its end |
| `PoolOrder.DropOrder` | BufferManager.cc:104-109 | The same for the buffers of an epoch whose batch is dropped |
| `PoolOrder.TakenInOrder` | BufferManager.cc:45-48 | A buffer that is handed out is the last one of the epoch's list |
| `PoolOrder.BatchInOrder` | BufferManager.cc:100-109 | A worker gets the buffers of the epoch in the order they were taken, and the pool is left alone |
| `Pool.EpochsIncrease` | BufferManager.cc:40-48 | Each assignment to a thread is in a later epoch than all its earlier ones |
| `Pool.OneCoordinator` | BufferManager.cc:86-89 | No epoch is ended twice |
| `Pool.SomeCoordinator` | BufferManager.cc:111-113 | Every epoch that is over was ended by a thread whose full buffer was of that epoch |
| `Progress.OpenIffOwnerOnIt` | Worker.h:11-13 | On drop-free, orphan-free runs a buffer of an in-flight batch is open exactly if its owner is still on it (as context, or leaving it), one owner to a buffer |
| `Progress.WaitStep` | Worker.h:11-13 | No step raises a worker's wait measure, and every step of a thread that is still on one of its buffers lowers it |
| `Progress.WaitEnds` | EventBuffer.h:43-56 | So until a worker releases its batch, the threads still on its buffers take at most 9 steps for each buffer between them, whatever all others do |
| `Progress.WaitOver` | Worker.h:12 | The measure is zero exactly if all buffers of the batch are closed |
| `Progress.BoundedStaleness` | Main.cc:589-601 | Once an epoch is over each thread adds at most one event to its record of it, and only one it had loaded its pointer for before |
| `Switches.UpdateFailsIff` | EventBuffer.h:45 | On every run the assertion of updateLogBuffer is what stops it if and only if the last step is a write-back and the thread's latest allocBuffer, with no step of that thread in between, was entered when the next buffer was its own |
| `Switches.OwnNextNeedsDrop` | BufferManager.cc:104-108 | A thread that calls allocBuffer in its slow path finds its own buffer next only if a batch was dropped before |
| `Hazards.SkipSafeIff` | BufferManager.cc:104-108 | For a coordinator that drops a batch and goes on to its write-back with nobody in between: the assertion fails exactly if its buffer was the last one taken; if not, it shares the buffer it gets with that buffer's owner unless the owner has exited |
| `Witnesses.SharingCanArise` | BufferManager.cc:104-108 | For every valid choice of constants there is a run without a fault on which two threads reach one buffer |
| `Witnesses.BystanderCanFail` | BufferManager.cc:104-108 | For every valid choice of constants there is a run on which the coordinator drops a batch whose last buffer is another thread's, and that thread fails the assertion |
| `SkipWitness.AssertionCanFail` | EventBuffer.h:45 | For every valid choice of constants a run ends in that failure |
| `Hazards.RebuildOrphans` | Context.h:38-45 | getLogBufferRef on a NULL pointer orphans a buffer exactly if the thread had one before |
| `Hazards.OrphanWaitsForever` | Worker.h:11-13 | After that the buffer stays open and the worker never finishes, on every continuation |
| `Hazards.StuckWorkersDrop` | BufferManager.cc:100-108 | Workers that wait for such buffers stay among the active ones for ever; if they fill all places, no call of tryIncEpoch starts a worker again |
| `Witnesses.OrphanCanArise` | Context.h:38-45 | If there is room for a worker, there is such a run that drops no batch |
| `Calls.CallIsRun` | Main.cc:563-603 | A call of __tsan_write8_buf_manager that nobody interrupts is a run of the protocol made of steps of that thread alone, in every branch and with every assertion failure |
| `Calls.LoopIsRun` | Main.cc:606-616 | So is the whole logging loop, up to the first failure, again by steps of that thread alone |
| `Calls.WorkerIsRun` | Worker.h:8-24 | A worker whose buffers are all closed gets through workerMain by its own steps alone, with the sum of their counts, and gives them back |
| `Calls.WorkerFinishesIff` | Worker.h:11-23 | A new worker finishes by its own steps alone if and only if `closed` is set in every buffer of its batch |
| `Loops.GetRefIsRun` | Context.h:37-45 | From no Ref a thread's own steps lead to a Ref with the count and the deadline of its buffer, allocated first if the pointer is NULL |
| `Loops.DropRefIsRun` | EventBuffer.h:28-32 | From a Ref its own steps lead to no Ref, with both fields written to the buffer |
| `Loops.RefComesBack` | EventBuffer.h:21-32 | A Ref that is destroyed and built again on the same buffer is the Ref it was |
| `Loops.UseIsRun` | Main.cc:605-616 | The whole of run_buf_manager, not interrupted, is a run made of the thread's own steps, from no Ref to no Ref or to the first fault |
| `Loops.UseAppends` | Main.cc:605-616 | A use that finds a buffer with room for its words puts them after the words that are there, the count grows by their number, and nothing else changes |
| `Loops.FirstUse` | Context.h:41-43 | A use on a NULL pointer that does not fill the buffer leaves exactly its words in it, as the buffer of this thread and epoch |
| `Loops.UsesContinue` | Main.cc:731-734 | Two uses in a row leave the words of both, one after the other, and the sum of their numbers as the count |
| `Loops.IdleInOrder` | EventBuffer.h:28-32 | After a drop-free run the buffer of a thread without a Ref is as these need it |
| `Uninterrupted.CallFindsNull` | BufferManager.cc:29 | In any reachable state the assertion of allocBuffer cannot stop such a call |
| `Uninterrupted.CallFaultsIff` | Main.cc:563-603 | In every reachable state, whatever was dropped before, such a call overruns the storage if and only if its index is past it; else it fails the assertion of updateLogBuffer if and only if its pointer is NULL and its own buffer is next, or its buffer is full at the deadline, no worker is to spare and its own buffer was the last one taken; else it does not fault |
| `Uninterrupted.DropFreeCallFaultsIff` | Main.cc:577-582 | After a drop-free run it faults if and only if its pointer is not NULL, its index is LastIndex, no worker is to spare and its own buffer was the last one taken |
| `EventBuffers.EventBuffer.constructor` | EventBuffer.h:60-63 | A new buffer is reset, and its storage has room for M+B+1 words |
| `EventBuffers.EventBuffer.Reset` | EventBuffer.h:70-78 | All fields but the storage are as new |
| `EventBuffers.BufferRef.constructor` | EventBuffer.h:21-26 | The Ref copies the fields of its buffer |
| `EventBuffers.BufferRef.Destroy` | EventBuffer.h:28-32 | Both counters are written back, nothing else changes |
| `EventBuffers.BufferRef.UpdateLogBuffer` | EventBuffer.h:42-56 | If the assertion holds the old buffer gets the count (and the count only) and is closed, and the Ref starts on the new one; if not, nothing changes |
| `Managers.BufferManager.constructor` | BufferManager.h:15-22 | A new manager stands for the initial state of the protocol |
| `Managers.BufferManager.NewThread` | Context.h:50-55 | A new context has the next identifier and no buffer |
| `Managers.BufferManager.AllocBuffer` | BufferManager.cc:25-50 | The method on the heap does what the protocol's step does: it returns the last free buffer, or a new one, empty, of the current epoch, in the thread's pointer and context and at the end of the list; nothing has changed if the assertion failed |
| `Managers.BufferManager.TryIncEpoch` | BufferManager.cc:83-114 | The same, field by field for the three outcomes, and the buffers handed to a new worker |
| `Managers.BufferManager.Release` | BufferManager.cc:59-67 | The batch is at the end of the pool, in its order, and one worker fewer is active, as the protocol's step says |
| `Managers.BufferManager.ThreadExit` | BufferManager.cc:120-129 | The thread is out of the participants and its latest buffer is closed, as the protocol's step says |
| `BufManagerLog.Write8` | Main.cc:585-603 | The logging function on the heap has the outcome of the specified call for the packed word |
| `BufManagerLog.Write8Slow` | Main.cc:563-583 | Its slow path has the specified outcome, for a NULL pointer, a deadline, and a full buffer |
| `BufManagerLog.GetLogBufferRef` | Context.h:37-45 | A Ref on the thread's buffer, allocated first if the pointer was NULL, with the buffer's count and deadline |
| `BufManagerLog.DestroyRef` | EventBuffer.h:28-32 | Both fields of the Ref are in its buffer, and in the state of the protocol |
| `BufManagerLog.RunBufManager` | Main.cc:605-616 | Ref, loop and write-back leave the specified state, or stop at the first fault |
| `BufManagerLog.WorkerMain` | Worker.h:7-24 | Returns the sum of the counts and gives the buffers back exactly if `closed` is set in all of them; otherwise it is still waiting and has changed nothing |
| `Rings.RingContents` | Main.cc:164-179 | A plain ring of period p is, after n events, at n mod p, with each of the last p events in the slot of its number mod p and all other slots untouched |
| `Rings.StepIsRingStep` | Main.cc:326-357 | One call of any variant keeps its deadline in order and is one step of the ring of its period |
| `Rings.RunIsRing` | Main.cc:269-284 | So every run of every variant (prefetch only if M > B+1) from a fresh buffer is a run of that ring, and stays inside the storage |
| `Rings.VariantPeriod` | Main.cc:454-492 | Count and contents after n events, with the period of each variant: S+1 for log_addr, S for log_src_loc, B*ceil(M/B) for log_full, B*ceil(max(M-1,1)/B)+1 for cached_bufptr and prefetch |
| `Rings.PrefetchRegularIff` | Main.cc:269-284 | The prefetching variant has that period on all runs if and only if M > B+1 |
| `Rings.WideIsFull` | Main.cc:507-523 | With an even batch log_full_128 logs the two words of each event as log_full would log them one by one, and starts each on an even slot |
| `Rings.WidePeriod` | Main.cc:516-522 | Its period is B*ceil(M/B) words, and the wrap never splits an event |
| `Loggers.WriteLogAddr` | Main.cc:171-179 | The code of the function is the specified step |
| `Loggers.WriteLogSrcLoc` | Main.cc:434-440 | The same |
| `Loggers.WritePrefetch` | Main.cc:269-284 | The same |
| `Loggers.WriteCachedBufPtr` | Main.cc:326-357 | The same, on a Ref |
| `Loggers.WriteLogFull` | Main.cc:454-492 | The same, on a Ref |
| `Loggers.WriteLogFull128` | Main.cc:507-523 | The same, for two words |
| `Loggers.RunDirect` | Main.cc:196-205 | The loops on a buffer run without leaving its storage and leave what the specified run leaves |
| `Loggers.RunCached` | Main.cc:359-370 | The loops on a Ref leave the buffer, after the write-back, as if they had worked on it directly |
| `Loggers.RunCached128` | Main.cc:525-536 | The same for two-word events |
| `Loggers.RunIterations` | Main.cc:731-734 | The iterations of a driver thread for log_addr, log_src_loc, prefetch, cached_bufptr and log_full, each with a new Ref if the function needs one, log as one run of all the words |
| `Loggers.RunIterations128` | Main.cc:731-734 | The same for log_full_128 |
| `Drivers.LoggedAccesses` | Main.cc:171-492 | From a fresh buffer, for each of the five one-word functions: the slot of each of the last accesses of a period shows its address, or decodes to its fields, with the period and the deadline in numbers |
| `Drivers.LoggedWide` | Main.cc:507-523 | The same for log_full_128: the two slots of an event decode to header, location, value and address |
| `Drivers.RepeatedAt` | Main.cc:731-734 | Event number j of the repeated accesses is access j mod their number |
| `Drivers.DriverThread` | Main.cc:720-734 | A driver thread leaves such a buffer, said of the accesses it made |
| `Drivers.DriverThread128` | Main.cc:720-734 | The same for log_full_128 |
| `Timestamps.AllWritesAt` | local_writes_benchmarks.cc:263-274 | The event of write k is word number k + k/R, a timestamp follows every R-th, and each is in the slot of its number mod the period, decodable, unless overwritten a period later |
| `Timestamps.CountdownThread` | local_writes_benchmarks.cc:367-381 | A thread that logs these writes into a new buffer leaves that, and the count and countdown in numbers |
| `Timestamps.CallsAreRing` | local_writes_benchmarks.cc:367-381 | The countdown code is a plain ring of whole groups of R+1 words that logs the events with a timestamp after every R-th, and counts down the calls left in the group |
| `Timestamps.CountdownInvariant` | local_writes_benchmarks.cc:263-274 | At every call boundary events mod (R+1) plus the countdown is R, and no index past S+R-1 is ever used |
| `Timestamps.SlotGrammar` | local_writes_benchmarks.cc:367-381 | Each slot written holds a timestamp exactly if its index is R mod (R+1), else an event that decodes to a logged access; the header tells which |
| `Timestamps.LapFits` | local_writes_benchmarks.cc:132 | The storage of S+R words suffices, with no slack exactly if S is 1 mod (R+1) |
| `Timestamps.StreamAt` | local_writes_benchmarks.cc:368-381 | Which call each word of the stream comes from |
| `Timestamps.CountdownBuffer.RdtscEvent` | local_writes_benchmarks.cc:263-274 | The code of the timestamp is the specified step |
| `Timestamps.CountdownBuffer.Write` | local_writes_benchmarks.cc:367-381 | The code of the logging function is the specified step |
| `Packing.FullDecodes` | Main.cc:590-599 | For every access the full layout gives back header, value byte and address, and the location or, if the value byte is negative, all ones |
| `Packing.FullIsDocumented` | LoggerConsts.h:8-12 | With a value byte below 128 the word has header, location, value and address at the documented bits |
| `Packing.FullIsOverwritten` | Main.cc:591-599 | With the sign bit set all 20 bits of the location are |
| `Packing.LocIdIsPlaced` | local_writes_benchmarks.cc:360-363 | The bits of the other layout |
| `Packing.WideIsPlaced` | Main.cc:512-517 | The bits of the two words |
| `Packing.TimestampIsPlaced` | local_writes_benchmarks.cc:268-269 | The bits of a timestamp |
| `Packing.FullExactIff` | Main.cc:483-486 | It decodes exactly if and only if the value byte is below 128 or the location is all ones |
| `Packing.FullLosesLocation` | Main.cc:433-436 | An access whose location is lost |
| `Packing.LocIdExact` | local_writes_benchmarks.cc:360-363 | The layout with the value above the location decodes exactly for every access |
| `Packing.WideExact` | Main.cc:516-517 | The two words give back header, 20 bits of location, 32 bits of value and the whole address |
| `Packing.TimestampTold` | LoggerConsts.h:18-19 | A timestamp is told from an access by its header and keeps the low 60 bits of the counter |
| `Packing.DecodeAllEncoded` | LoggerConsts.h:8-27 | A whole logged sequence decodes word by word |

## Left out

- Weak memory: the model is sequentially consistent. The relaxed and plain accesses of the code promise less.
- Machine integers: counts, epochs and sums are mathematical integers; the code has 32-bit `int`.
- NULL pointers in CACHED_BUF_PTR, LOG_FULL and LOG_FULL_128: the driver gives these functions a private buffer whose pointer is never revoked (Main.cc:723-727), so that branch of their slow path is not modelled; the buffer-manager path has it.
- BufManagerLog.WorkerMain: the method does not spin, as nothing changes while a sequential method runs. That the wait ends is stated on runs (`Progress.WaitEnds`).
- Progress.WaitEnds: counts steps of the owners. That the scheduler lets every thread run on is not modelled.
- Building a Ref and moving a deadline are one step each; they touch fields that no other thread looks at then.
- MAX_EVENTS = 1 on the buffer-manager path.
- Cut consistency, barriers and timeouts of DesignNotes.adoc, which the code does not have.
- `EventBufferManager` and the EPOCH body in local_writes_benchmarks.cc, an older manager.
- log_header, log_value, log_addr_direct, volatile_bufptr and log_full_naive: the loops of log_addr with other words.
- The stores of the instrumented program itself, prefetch instructions (no effect on the state), the global event counter, variants without logging.
- Thread-local construction order, reuse of thread-local addresses, detached threads: threads are identified by number.
- Drivers, timing, printing, scripts and the LLVM pass.
