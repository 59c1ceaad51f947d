# Verified model of the NPU backend

A Dafny model of the parts of the backend whose correctness does not show in any single
function: the asynchronous task queue, peer-to-peer links, stream pools, storage formats,
device selection, and three algorithms of the Python layer.

- `Rings.dfy` – the power-of-two ring with its masked indices, as a bounded FIFO.
- `TaskQueue.dfy` – the task queue as a step relation: any number of clients calling
  `Enqueue` and `MakeSureQueueEmpty`, the consumer thread, the releaser thread, the
  destructor. One step is one access to shared memory, one lock operation, one eventfd
  call or one callback, so every interleaving is a run. A test of the ring loads both
  indices: two steps, in either order, wherever other threads may move either index.
- `TaskQueueInvariants.dfy` – the inductive invariant, thread by thread.
- `TaskQueueTheorems.dfy` – what holds on every run: wake-ups, exactly-once execution,
  conservation through the release ring, the flush guarantee, fail-stop, shutdown.
- `TaskQueueCalls.dfy` – how each call ends: what Enqueue and MakeSureQueueEmpty do with what
  they read of the status, and what an exception discards.
- `TaskQueueSignals.dfy` – the flags that save notifications: what each says, that a thread
  notifies only after a look, and that a wait takes every token.
- `TaskQueueShutdown.dfy` – what the releaser and the destructor leave behind, and that the
  destructor gets to its end.
- `TaskQueueFailures.dfy` – after a failed callback: exactly when the consumer leaves its
  loop, and exactly which call of a single client can hang.
- `TaskQueueLimits.dfy` – where the guarantees end: concrete runs, and theorems that say for
  which sets of threads wake-ups and progress are safe and for which they are not.
- `QueueObjects.dfy` – the two queue classes over arrays, for one thread at a time.
- `PeerToPeer.dfy` – the link controller: a symmetric relation in a flattened matrix with a
  counter per device.
- `StreamIds.dfy`, `StreamPools.dfy` – the 64-bit id codec, the round-robin pools behind a
  wrapping 32-bit counter, the current streams.
- `StorageFormats.dfy` – shape inference for padded formats, conversions between base
  formats, and the repair of a requested format.
- `StoragePlaces.dfy` – where an element lies in the storage of each format.
- `DeviceSelection.dfy` – the pending target device over the ACL context, guards and events.
- `YamlMerge.dfy` – the recursive merge, for every dictionary iteration order.
- `YamlMergeOrder.dfy` – the merge of trees that spell the renamed key both ways, where the
  iteration order matters.
- `LazyInit.dfy` – deferred initialisation with re-entrant callbacks.
- `QuantMatmul.dfy` – shape and dtype inference of the quantised matrix product.

Memory is sequentially consistent, which the full fences between each publish and the
following check justify. Where one of the two indices a test loads is the thread's own (the
consumer's read index, the write index under its mutex, both indices of the release ring),
that load commutes with every step of the others and the test is one step. Callbacks,
eventfd calls and ACL calls appear through their answers, which are arbitrary parameters of
a step or of a call.

## What turned out to be false, and the exact boundary

- A task accepted while the queue is being destroyed can be dropped (`ShutdownCanDropATask`):
  a shutdown without failures drops exactly the tasks accepted after `ReadQueue` last
  answered "empty" (`ShutdownDropsExactlyLateTasks`).
- An entry pushed to the release queue while the queues are being destroyed can stay there
  unfreed (`ShutdownCanLeaveAnEntry`): the releaser's answer "empty" can be stale when it
  reads NEED_EXIT. It has freed exactly what had been pushed at its last such answer
  (`ReleaserLeavesExactly`), so everything if that came after the consumer's exit
  (`LateAnswerFreesEverything`).
- Enqueue can drop its task and return as if it had been accepted, before any shutdown
  (`EnqueueCanDropSilently`): it loads the status up to three times, and reports only an
  error that its first load finds. It throws, accepts or drops exactly by what those loads
  read (`EnqueueEndsExactly`).
- The flush guarantee does not hold for every flush. `MakeSureQueueEmpty` loads the read index
  and the write index separately; if the read index is loaded first, the ring can go round
  in between, and the call returns SUCCESS with 4094 earlier tasks not executed
  (`FlushCanReturnEarly`). It holds on all runs without failures exactly when there is one
  client (`FlushesKeptExactly`); a flush by the only producer, or one that loads the write
  index first, is always safe (`FlushGuarantee`).
- After a failure a flush can return SUCCESS with nothing reported
  (`FlushCanSucceedAfterFailure`): exactly when the failure has not been reported yet, or
  some client has already claimed the report (`FlushSucceedsExactly`).
- The report of a failure can be put off for any number of tasks (`DrainGoesOn`): it follows
  a test that finds the ring empty with everything accepted released
  (`ReportFollowsEmptyDrain`).
- "Nothing is executed after a failure" ends with the start of the destructor, which can make
  the consumer execute a task stranded before (`StrandedTaskRunsAtShutdown`).
- After a failure the consumer need not leave its loop. Once it can take no further step it
  has left exactly when no client had claimed the error at its look at the status, or when
  something roused it afterwards: indices found different as it was about to sleep, a token,
  or an interruption (`ConsumerExitsExactly`, `ConsumerStopsAfterALook`). Both outcomes occur
  after a claim (`ConsumerCanSleepAfterFailure`, `ConsumerCanLeaveAfterAClaim`).
- After a failure `MakeSureQueueEmpty` can hang for good, with the status still ERROR_EXIT
  and nothing thrown (`FlushCanHangAfterFailure`). With one client, and the notifications of
  the failure not interrupted, this is the only call that can hang, and it takes exactly one
  task published after the consumer's report (`LoneClientHangsExactly`).
- The reader's flag need not be up while the consumer reads: an interrupted wait, and a test
  that finds the ring not empty after all, go on with it down; the writer's likewise
  (`FlagUpExactly`). That costs notifications, not wake-ups.
- Consumer wake-ups survive failing runs exactly when there is one client thread
  (`ConsumerWakeUpsKeptExactly`): otherwise a client that reports the error can rewind the
  read index past a task published meanwhile. Without such a rewind they are safe for any
  number of clients (`NoLostConsumerWakeUp`).
- Producer wake-ups are safe exactly for at most one producer (`ProducerWakeUpsKeptExactly`),
  as the comment at backends/npu/core/NPUQueue.h:130-133 supposes; the mutex added there
  "just in case" does not extend them to two. With two, a producer can sleep for good beside
  an empty ring while everybody else is idle, so progress is lost too (`NoDeadlockExactly`).
- `MaybeExchangeDevice` does not clear a pending target (`MaybeExchangeObservedExactly`).
- Leaving a guard restores the old device exactly when the driver takes it at the first try
  or at the second, which is made by the warning about the first (NPU_CHECK_WARN evaluates
  its argument again); on a thread that has become unusable it ends the process
  (`GuardRestoresExactly`, `GuardCanWarnAndRestore`, `GuardCanEndTheProcess`).
- Storage can be smaller than the tensor: NC1HWC0 and FRACTAL_Z ignore everything beyond
  four dimensions, NDHWC, NCDHW, NDC1HWC0 and FRACTAL_Z_3D everything beyond five, and these
  are exactly the ranks at which some tensor does not fit (`CoversExactly`).
  `GuessStorageFormat` repairs this for NCDHW alone, `GuessFormatUnit` for none
  (`RepairedCoversExactly`, `UnitCoversExactly`).
- A scalar converted to NCHW and back comes back with rank 4 (`WidenThenNarrow`).
- An odd stream id with type bits 15 also reads as external (`IdsPartition`).
- Merging the same YAML tree twice is not merging it once when a subtree that contains the
  key `official` is copied as it is (`MergeIsIdempotentExactly`); when a dictionary spells
  that key both ways the condition depends on the order (`MergeIsIdempotentInOrder`).
- The batch inference of the quantised product differs from PyTorch's broadcasting exactly
  when no two sizes clash and some size 0 meets another size (`AgreesWithBroadcastExactly`).
- A failed lazy initialisation runs the calls before the failing one again on every retry
  (`RetryRunsTheSameCallsAgain`), and what they had deferred runs twice once a retry
  succeeds (`RetryRunsDeferredCallsTwice`).

## Where the modelled code is

The functions below follow the code branch by branch; the table then names the members that
state something about them.

- `TaskQueue.EnqueueMove`: NPUQueue.cpp:326-389 with 273-285; `FlushMove`: 221-271; `ThrowMove`:
  256-268 and 332-344; `DequeueMove`: 391-461 and 499-519; `ReadMove`: 287-293 and 318-324;
  `ErrorMove`: 294-316; `MoveReleaser`: 580-624; `MoveDestructor`: 479-489 and 637-645;
  `Initial`: 521-538 (all in backends/npu/core).
- `PeerToPeer.After`, `Answer`, `Unreachable`: NPUPeerToPeerAccess.cpp:45-110.
- `StreamIds.StreamIdType`, `StreamIdIndex`, `MakeStreamId`: NPUStream.cpp:124-149;
  `StreamPools.Resolve`: 232-264; `PoolOf`: 281-283 (csrc/backend).
- `StorageFormats.GetBaseFormat`, `GetStorageSizes` and the `InferShape` functions:
  FormatHelper.cpp:58-118 and 232-563, FormatHelper.h:74-91; `GuessFormatUnit`,
  `GuessBaseFormat`, `GuessStorageFormat`: InferFormat.cpp:28-92 (backends/npu/framework).
- `DeviceSelection.AclSetDevice`, `AclGetDevice`, `HasPrimaryContext`:
  acl_device_adapter.cpp:11-45; `GetDevice` to `SetTargetDevice`: NPUFunctions.cpp:117-198;
  `GuardExchange`, `OnDevice`, `DestroyOnDevice`: NPUGuardImpl.h:28-140; `TrySet`, `TryGet`:
  NPUException.h:23-32.
- `YamlMerge.KeyMap`, `Merge`, `MergeKeys`, `MergeKey`, `AddMissing`: codegen/utils.py:123-142.
- `LazyInit.Drain`: torch_backend/backend/\_\_init\_\_.py:154-163; `RunNow`: 125-127.
- `QuantMatmul.ShapeCheck`, `BiasShapeCheck`, `DtypeCheck`, `ScaleOffsetOutCheck`:
  torch_backend/meta/\_\_init\_\_.py:339-482.

## Model

| member | source | states |
|---|---|---|
| Bits.MaskIsRemainder | backends/npu/core/NPUQueue.cpp:283 | masking with 2^k - 1, bit by bit, is the remainder modulo 2^k |
| Rings.MaskedAdvanceIsAdvance | backends/npu/core/NPUQueue.cpp:321 | the 32-bit increment-and-mask keeps an index inside the ring and moves it to the cyclic successor |
| Rings.WrapThenRemainder | backends/npu/core/NPUQueue.cpp:647-649 | the release queue's full test by remainder agrees with the mask even where the 32-bit sum wraps |
| Rings.RingRefinesBoundedFifo | backends/npu/core/NPUQueue.h:96-98 | "empty" and "full" hold exactly when the abstract sequence has length 0 and capacity - 1, which is its maximum |
| Rings.WriteAppends | backends/npu/core/NPUQueue.cpp:273-285 | copy then publish on a ring that is not full appends one element; the copy alone changes no unread slot |
| Rings.RetireDropsHead | backends/npu/core/NPUQueue.cpp:318-321 | advancing the read index removes exactly the head that was at the read slot |
| Rings.TracksTests | backends/npu/core/NPUQueue.cpp:491-493 | a ring that tracks a log after `taken` elements is empty, or full, exactly when the log's unread part has length 0, or capacity - 1 |
| Rings.TracksContents | backends/npu/core/NPUQueue.cpp:273-324 | the contents of a ring that tracks a log are the log's unread part |
| TaskQueue.StepKeepsShape | backends/npu/core/NPUQueue.cpp:283-321 | every step of every thread keeps both pairs of indices inside their rings |
| TaskQueueInvariants.ClientKeepsLocks | backends/npu/core/NPUQueue.cpp:237-274 | a step of one client keeps another client's hold on either mutex |
| TaskQueueInvariants.ConsumerKeepsRunning | backends/npu/core/NPUQueue.cpp:287-324 | until a failure is reported each consumer step keeps: while callbacks succeed, executed and released are prefixes of accepted, one ahead of the read index while a task is in flight; after one has failed, the drain releases the accepted tasks in order |
| TaskQueueInvariants.SureAnswer | backends/npu/core/NPUQueue.cpp:237 | an answer "empty" whose write index was loaded first covers all that was accepted at that load; with the read index first it does so only if fewer than 4096 tasks were accepted since |
| TaskQueueInvariants.ClientKeepsRunning | backends/npu/core/NPUQueue.cpp:326-389 | each step of Enqueue keeps the same relation and the room its own pending publish relies on |
| TaskQueueInvariants.ClientKeepsReader | backends/npu/core/NPUQueue.cpp:374-388 | a client step leaves the consumer asleep beside a non-empty ring, or about to sleep on a stale load, only with a token or with itself on the way to notify |
| TaskQueueInvariants.ConsumerKeepsStatus | backends/npu/core/NPUQueue.cpp:402-429 | consumer steps keep the relation between status word, failure history and the consumer's position |
| TaskQueueInvariants.ConsumerClaimsNothing | backends/npu/core/NPUQueue.cpp:406-413 | before the destructor starts, the consumer never turns a raised error into CAN_EXIT; only a client does |
| TaskQueueInvariants.ConsumerKeepsPipeline | backends/npu/core/NPUQueue.cpp:305-318 | consumer steps, failing or not, keep the release ring equal to what was pushed and not yet recycled |
| TaskQueueInvariants.ReleaserKeepsPipeline | backends/npu/core/NPUQueue.cpp:580-613 | releaser steps keep the same relation |
| TaskQueueInvariants.StepKeepsInv | backends/npu/core/NPUQueue.cpp:221-519 | the whole invariant is preserved by every step of every thread |
| TaskQueueInvariants.RunKeepsInv | backends/npu/core/NPUQueue.cpp:521-538 | every state of every run that starts where InitRepo ends satisfies the invariant |
| TaskQueueTheorems.NoLostConsumerWakeUp | backends/npu/core/NPUQueue.cpp:350-429 | any number of clients: a consumer asleep beside a non-empty ring has a token, or some producer has published and has yet to notify, as long as no client has rewound the read index |
| TaskQueueTheorems.LoneConsumerWakeUp | backends/npu/core/NPUQueue.cpp:332-344 | with one client the same holds on failing runs too, and its rewind always empties the ring |
| TaskQueueTheorems.NoLostProducerWakeUp | backends/npu/core/NPUQueue.cpp:355-373 | one producer, no failure: a producer asleep beside a ring with room has a token, or the consumer is on its way to notify |
| TaskQueueTheorems.NoLostEmptyWakeUp | backends/npu/core/NPUQueue.cpp:238-251 | no failure, any number of clients, the two loads of the re-test in either order and apart: a flush asleep beside an empty ring has a token, or the consumer is on its way to notify |
| TaskQueueTheorems.NoDeadlock | backends/npu/core/NPUQueue.cpp:221-461 | one producer, no failure: while any client is inside a call, some thread can make progress: a client, the consumer other than by spinning on a full release queue, or the releaser with an entry to free |
| TaskQueueTheorems.ProgressIsNotStutter | backends/npu/core/NPUQueue.cpp:564-578 | a step counted as progress always moves its thread to another position |
| TaskQueueTheorems.ReleaserLives | backends/npu/core/NPUQueue.cpp:594-624 | until the destructor starts, the releaser stays in its loop with status INIT |
| TaskQueueTheorems.ExactlyOnceInOrder | backends/npu/core/NPUQueue.cpp:273-324 | while no callback has failed: tasks passed by the read index, then the ring, are the accepted tasks; executed and released are prefixes of them, never more than one ahead, so each task is executed and released once, before its slot is given up |
| TaskQueueTheorems.EveryTaskAccountedFor | backends/npu/core/NPUQueue.cpp:294-316 | on every run until the destructor starts: executed and released are prefixes of accepted; before the report, passed tasks and the ring are all of them; after it, what lies between the two prefixes was drained unexecuted and everything behind them passed over |
| TaskQueueTheorems.ReportIsFinal | backends/npu/core/NPUQueue.cpp:310-315 | after the report nothing more is executed or released until the destructor starts, so what was passed over stays so |
| TaskQueueTheorems.ReportFollowsEmptyDrain | backends/npu/core/NPUQueue.cpp:305-310 | ERROR_EXIT is stored only after a test of the drain that found the ring empty, with every accepted task released at that test |
| TaskQueueTheorems.OnlyEmptyDrainReports | backends/npu/core/NPUQueue.cpp:305-310 | the step after a drain's test is the report exactly when the ring was empty |
| TaskQueueTheorems.NoUnreadSlotOverwritten | backends/npu/core/NPUQueue.cpp:273-285 | until a failure is reported, a client step changes the unread contents only by appending, at its publish, the task its own caller passed |
| TaskQueueTheorems.PipelineConserves | backends/npu/core/NPUQueue.cpp:552-592 | on every run, entries freed, then the release ring, are the entries pushed, in order, with at most 8191 outstanding |
| TaskQueueTheorems.HistoryGrows | backends/npu/core/NPUQueue.cpp:221-461 | along a run every history list only grows by appending and no failure is forgotten |
| TaskQueueTheorems.FlushGuarantee | backends/npu/core/NPUQueue.cpp:221-271 | when a flush that loaded the write index first, or that is made by the only producer, returns SUCCESS without a failure, every task accepted before the call has been executed and released; after an unreported failure each has at least been released |
| TaskQueueTheorems.FlushSucceedsExactly | backends/npu/core/NPUQueue.cpp:256-270 | after a failure, a flush that has found the ring empty returns SUCCESS exactly when the failure is not reported yet or a client has claimed the report |
| TaskQueueTheorems.NothingExecutedAfterFailure | backends/npu/core/NPUQueue.cpp:294-316 | until the destructor starts, nothing is executed after a callback has failed |
| TaskQueueTheorems.ConsumerStopsSoon | backends/npu/core/NPUQueue.cpp:310-429 | once ERROR_EXIT is stored the consumer takes at most 14 more steps, whatever the clients do |
| TaskQueueTheorems.StoppedMeansExitedOrMissed | backends/npu/core/NPUQueue.cpp:514-517 | a consumer that can no longer move after a failure has left StartConsume, or sleeps because some client claimed the error |
| TaskQueueTheorems.ConsumerLeavesIffUnclaimed | backends/npu/core/NPUQueue.cpp:411-413 | at its look at the status the consumer breaks out of Dequeue's loop exactly when no client has claimed the error |
| TaskQueueFailures.ConsumerExitsExactly | backends/npu/core/NPUQueue.cpp:402-426 | after its look, a consumer that can take no further step has left StartConsume exactly when the error was unclaimed at the look or differing indices, a token or an interruption roused it since; otherwise it sleeps without a token |
| TaskQueueFailures.ConsumerStopsAfterALook | backends/npu/core/NPUQueue.cpp:514-517 | on every run that has raised an error, a consumer that can take no further step has had such a look, and the same equivalence holds |
| TaskQueueFailures.LoneClientIsCovered | backends/npu/core/NPUQueue.cpp:305-316 | one client, uninterrupted error notifications, failing runs included: a flush asleep beside an empty ring and an Enqueue asleep beside room have a token or a consumer about to write one, and at most one task is published after the report |
| TaskQueueFailures.LoneClientHangsExactly | backends/npu/core/NPUQueue.cpp:234-254 | under the same conditions nobody can make progress during a call exactly when the call is a flush asleep with no token and the consumer has exited; that takes a failure and exactly one task left in the ring |
| TaskQueueTheorems.OneExceptionPerClient | backends/npu/core/NPUQueue.cpp:256-268 | until the destructor starts each client gets at most one exception, and only after a failure |
| TaskQueueTheorems.NothingAcceptedAfterException | backends/npu/core/NPUQueue.cpp:332-349 | after a client has claimed the error no client enters the writing part of Enqueue, and if nobody was in it nothing more is accepted |
| TaskQueueTheorems.ShutdownDropsExactlyLateTasks | backends/npu/core/NPUQueue.cpp:402-409 | a consumer that exits without a failure has executed and released exactly the tasks accepted before ReadQueue last answered "empty"; the rest are still in the ring |
| TaskQueueTheorems.IdleQueueShutsDownClean | backends/npu/core/NPUQueue.cpp:479-489 | if the ring was empty with no Enqueue running, and none began later, the exited consumer has executed everything |
| TaskQueueCalls.EnqueueEndsExactly | backends/npu/core/NPUQueue.cpp:326-389 | every Enqueue that ends, on every run: it throws exactly when its first load of the status reads ERROR_EXIT; its task is accepted, once and as passed, exactly when a later load reads RUN or INIT; otherwise the last load has read something else, nothing is accepted and nothing thrown |
| TaskQueueCalls.FlushEndsExactly | backends/npu/core/NPUQueue.cpp:256-270 | every flush that ends, on every run: it has loaded the status after finding the ring empty, and throws exactly when that load reads ERROR_EXIT |
| TaskQueueCalls.ThrowDiscardsPending | backends/npu/core/NPUQueue.cpp:332-344 | the exception ends the call and moves the read index to where the write index was at the call's own load; with one client the ring is empty then |
| TaskQueueSignals.FlagUpExactly | backends/npu/core/NPUQueue.h:100-112 | on every run the reader's flag, the writer's flag and a flush's request are up exactly when nobody has taken them down since the last step that put them up |
| TaskQueueSignals.ReaderNotifiedAfterLook | backends/npu/core/NPUQueue.cpp:374-386 | a producer is about to notify the consumer only if its own last step found the reader's flag down, after an interruption as well |
| TaskQueueSignals.WriterNotifiedAfterLook | backends/npu/core/NPUQueue.cpp:447-459 | the consumer is about to notify the producers only if its own last step found the writer's flag down, after an interruption as well |
| TaskQueueSignals.FlushNotifiedAfterLook | backends/npu/core/NPUQueue.cpp:432-445 | the consumer is about to notify a flush only if it has read a request and then found the ring empty; interrupted, it tries again without looking |
| TaskQueueSignals.WokenProducerTookTokens | backends/npu/core/NPUQueue.cpp:358-370 | a producer puts its flag up again only after a wait that took every token; interrupted, it goes on with the flag down |
| TaskQueueSignals.WokenConsumerTookTokens | backends/npu/core/NPUQueue.cpp:417-428 | the consumer puts its flag up again only after a wait that took every token |
| TaskQueueSignals.WithdrawnRequestWasMet | backends/npu/core/NPUQueue.cpp:238-253 | a flush takes its request back only after a wait that took every token, or because it found the ring empty; interrupted, it leaves the request up |
| TaskQueueSignals.TokensOneOrAll | backends/npu/core/NPUQueue.cpp:358-445 | every step of every thread writes at most one token to each eventfd, and a read takes all of them |
| TaskQueueSignals.DequeueEndsExactly | backends/npu/core/NPUQueue.cpp:402-460 | on every run Dequeue ends exactly when a task has been read and the producers are notified or need not be, when CAN_EXIT is read at the loop's test, with the answer to NEED_EXIT, or when ERROR_EXIT is read; an interrupted wait goes on inside it |
| TaskQueueShutdown.RunKeepsStops | backends/npu/core/NPUQueue.cpp:601-624 | on every run: the release status is INIT exactly until the destructor stops the releaser, the releaser leaves only on CAN_EXIT, and from an answer "empty" to the next test, or for good under CAN_EXIT, the slots recycled are exactly those of the entries pushed at that answer |
| TaskQueueShutdown.ReleaserLeavesExactly | backends/npu/core/NPUQueue.cpp:601-624 | a releaser that has left StartRelease has freed, in order, exactly the entries pushed when ReadFromReleaseQueue last answered "empty"; the rest is still in the release ring |
| TaskQueueShutdown.LateAnswerFreesEverything | backends/npu/core/NPUQueue.cpp:601-608 | if that answer came after the consumer had exited, nothing is left behind |
| TaskQueueShutdown.DestructorLeavesExactly | backends/npu/core/NPUQueue.cpp:479-489 | when both destructors are through without a failure, both threads have exited, and executed, released and freed are the prefixes of the accepted tasks that the two last answers "empty" cut out |
| TaskQueueShutdown.ShutdownIsNeverStuck | backends/npu/core/NPUQueue.cpp:479-486 | without a failure, and the destructor's notification not interrupted, a destructor that has started can move, or the thread it joins can |
| TaskQueueShutdown.DestructorWakesFlush | backends/npu/core/NPUQueue.cpp:486-487 | once the consumer is joined, the destructor's notification, unless interrupted, lets any flush that still sleeps go on |
| TaskQueueLimits.ShutdownCanDropATask | backends/npu/core/NPUQueue.cpp:404-408 | for every set of threads with a producer, a run whose consumer exits without executing an accepted task, with no failure |
| TaskQueueLimits.ShutdownCanLeaveAnEntry | backends/npu/core/NPUQueue.cpp:602-608 | for every set of threads with a producer, a run without failures after which both destructors are through and a pushed entry was never freed |
| TaskQueueLimits.EnqueueCanDropSilently | backends/npu/core/NPUQueue.cpp:332-349 | for every set of threads with a producer, a run on which an Enqueue whose first load found no error meets ERROR_EXIT at its later loads and returns, its task dropped and nothing thrown |
| TaskQueueLimits.ConsumerCanSleepAfterFailure | backends/npu/core/NPUQueue.cpp:406-426 | for every set of threads with a producer, a run that ends with the consumer asleep after a failure and every client idle |
| TaskQueueLimits.ConsumerCanLeaveAfterAClaim | backends/npu/core/NPUQueue.cpp:417-427 | for every set of threads with a producer, a run on which the error is claimed before the look and the consumer leaves all the same, woken by an earlier token |
| TaskQueueLimits.FlushCanReturnEarly | backends/npu/core/NPUQueue.cpp:237 | a producer and any other client, no failure: a run on which the other client's flush returns SUCCESS when 4094 of the 4095 tasks accepted before it are not executed |
| TaskQueueLimits.FlushesKeptExactly | backends/npu/core/NPUQueue.h:96-98 | flushes of a queue with a producer leave nothing behind on all runs without failures, whichever index they load first, if and only if there is one client |
| TaskQueueLimits.FlushCanSucceedAfterFailure | backends/npu/core/NPUQueue.cpp:256-270 | for every set of threads with a producer, a run on which a flush returns SUCCESS after a failure that dropped an accepted task, with status INIT |
| TaskQueueLimits.DrainGoesOn | backends/npu/core/NPUQueue.cpp:305-308 | for every set of threads with a producer and every n, a run on which n tasks accepted after the failure are drained before it is reported |
| TaskQueueLimits.StrandedTaskRunsAtShutdown | backends/npu/core/NPUQueue.cpp:479-484 | a producer and any other client: a run on which the destructor's status and token make the consumer execute a second task after a failure |
| TaskQueueLimits.FlushCanHangAfterFailure | backends/npu/core/NPUQueue.cpp:237-254 | for every set of threads with a producer, a run that ends with a flush asleep for good, the status ERROR_EXIT, nothing thrown and nobody able to make progress |
| TaskQueueLimits.RewindCanStrandATask | backends/npu/core/NPUQueue.cpp:332-336 | a producer and any other client: a run after which the consumer sleeps beside a non-empty ring with no token and nobody to write one |
| TaskQueueLimits.ConsumerWakeUpsKeptExactly | backends/npu/core/NPUQueue.cpp:256-260 | consumer wake-ups are kept on all runs of a queue with a producer if and only if there is one client |
| TaskQueueLimits.TwoProducersCanLoseAWakeUp | backends/npu/core/NPUQueue.cpp:354-371 | two producers: a run without failures that ends with one producer asleep on an empty ring, everybody else idle or asleep, no token, and nobody able to make progress |
| TaskQueueLimits.ProducerWakeUpsKeptExactly | backends/npu/core/NPUQueue.h:130-133 | producer wake-ups are kept on all runs without failures if and only if there is at most one producer |
| TaskQueueLimits.NoDeadlockExactly | backends/npu/core/NPUQueue.cpp:350-461 | some thread can make progress in every state of every run without failures in which a call is running, if and only if there is at most one producer |
| QueueObjects.ReleaseQueue.constructor | backends/npu/core/NPUQueue.cpp:626-635 | the new ring is empty |
| QueueObjects.ReleaseQueue.IsEmptyQueue | backends/npu/core/NPUQueue.h:40-42 | true exactly when nothing is queued |
| QueueObjects.ReleaseQueue.IsFullQueue | backends/npu/core/NPUQueue.cpp:647-649 | true exactly when 8191 entries are queued |
| QueueObjects.ReleaseQueue.WriteToReleaseQueue | backends/npu/core/NPUQueue.cpp:552-562 | appends the entry unless 8191 are queued, and then changes nothing |
| QueueObjects.ReleaseQueue.ReadFromReleaseQueue | backends/npu/core/NPUQueue.cpp:580-592 | frees exactly the oldest entry, so what was freed followed by what is queued stays the same |
| QueueObjects.ReleaseQueue.PushToReleaseQueue | backends/npu/core/NPUQueue.cpp:564-578 | spins while full as the releaser makes room; the log of all entries ever pushed gains this one at its end |
| QueueObjects.Repository.constructor | backends/npu/core/NPUQueue.cpp:521-538 | both rings are empty and the status is INIT |
| QueueObjects.Repository.IsEmptyQueue | backends/npu/core/NPUQueue.h:96-98 | true exactly when no task is pending |
| QueueObjects.Repository.IsFullQueue | backends/npu/core/NPUQueue.cpp:491-493 | true exactly when 4095 tasks are pending |
| QueueObjects.Repository.WriteQueue | backends/npu/core/NPUQueue.cpp:273-285 | appends the task unless 4095 are pending, and leaves the release log alone |
| QueueObjects.Repository.ReadQueue | backends/npu/core/NPUQueue.cpp:287-324 | success moves the head to the release log; failure moves every pending task there in order, empties the queue and sets ERROR_EXIT; an empty queue changes nothing |
| QueueObjects.Repository.Drain | backends/npu/core/NPUQueue.cpp:305-308 | the loop ends with an empty queue and every pending task released in order |
| QueueObjects.Repository.ReleaseAndAdvance | backends/npu/core/NPUQueue.cpp:306-307 | the head leaves the queue for the release log; release log followed by queue stays the same |
| QueueObjects.Repository.TakeError | backends/npu/core/NPUQueue.cpp:332-344 | throws exactly on ERROR_EXIT, once, discarding whatever is pending; otherwise changes nothing |
| PeerToPeer.NpuP2pCtrl.constructor | backends/npu/core/NPUPeerToPeerAccess.cpp:16-29 | the matrix is allowed exactly on its diagonal and every count is 1 |
| PeerToPeer.NpuP2pCtrl.GetP2pAccess | backends/npu/core/NPUPeerToPeerAccess.cpp:45-110 | the new matrix and counts, the answer or error, and the unreachable flag are those of the specification, for every answer of the driver; an ACL error at any of the four calls leaves matrix and counts as they were; the invariant is kept |
| PeerToPeer.NpuP2pCtrl.Record | backends/npu/core/NPUPeerToPeerAccess.cpp:74-75 | writes one answer into both cells of a pair and nothing else |
| PeerToPeer.NpuP2pCtrl.Lookup | backends/npu/core/NPUPeerToPeerAccess.cpp:62-69 | the flattened index is in range and reads the pair's cell |
| PeerToPeer.NpuP2pCtrl.Link | backends/npu/core/NPUPeerToPeerAccess.cpp:103-107 | allows both cells and adds one to each end's count |
| PeerToPeer.FlatPut | backends/npu/core/NPUPeerToPeerAccess.cpp:62-65 | a write at source * n + dest of the flattened cache is in range and changes cell (source, dest) of the matrix and no other |
| PeerToPeer.AfterKeepsValid | backends/npu/core/NPUPeerToPeerAccess.cpp:61-107 | every call keeps: symmetric matrix, allowed diagonal, each count equal to the allowed cells of its row and at most 8 |
| PeerToPeer.LinkKeepsValid | backends/npu/core/NPUPeerToPeerAccess.cpp:102-107 | two cell updates and two increments keep all row counts right |
| PeerToPeer.DecisionsAreFinal | backends/npu/core/NPUPeerToPeerAccess.cpp:67-69 | over every sequence of calls and driver answers a decided pair keeps its answer in both directions |
| PeerToPeer.NeverMoreThanEightLinks | backends/npu/core/NPUPeerToPeerAccess.cpp:71-85 | after every sequence of calls a device is allowed at most eight devices, itself included, and allowance is symmetric |
| PeerToPeer.AnswerMatchesCells | backends/npu/core/NPUPeerToPeerAccess.cpp:49-109 | an answer is what both cells say afterwards; an error of any kind leaves everything as it was |
| PeerToPeer.RefusedExactlyWhen | backends/npu/core/NPUPeerToPeerAccess.cpp:71-98 | a pair decided now is refused exactly when an end already has eight allowed devices or a direction cannot work |
| PeerToPeer.FreshAnswerExactly | backends/npu/core/NPUPeerToPeerAccess.cpp:71-109 | an undecided pair without room at both ends is refused unasked; otherwise the first failing driver call is the error, enabling coming only after both abilities, and without one the pair is linked exactly when both directions can work; the flag marks exactly the refusals with room |
| PeerToPeer.OutOfRangeExactly | backends/npu/core/NPUPeerToPeerAccess.cpp:50-59 | which device is reported out of range, the source first |
| PeerToPeer.OnlyThePairChanges | backends/npu/core/NPUPeerToPeerAccess.cpp:67-104 | a call changes a cell exactly when it is one of the two of its own undecided pair and no error is reported; a decided pair is answered from its cell |
| PeerToPeer.LinksCountOnce | backends/npu/core/NPUPeerToPeerAccess.cpp:103-107 | a new link adds one allowed device at each of its two ends and nowhere else |
| PeerToPeer.AnswersAreStable | backends/npu/core/NPUPeerToPeerAccess.cpp:67-69 | asking again in either direction after any other calls gives the same answer |
| StreamIds.IdsPartition | csrc/backend/NPUStream.cpp:124-136 | default, external and native ids partition all 64-bit values, and the type decoder tells them apart except for type bits 15 and 0 of odd ids |
| StreamIds.DecodeInvertsMake | csrc/backend/NPUStream.cpp:138-149 | for types 1 to 14 and indices below 32, encoding gives a non-negative native id that decodes to the same type and index |
| StreamIds.MakeIsInjective | csrc/backend/NPUStream.cpp:143-149 | different types or indices give different native ids |
| StreamIds.MakeInvertsDecode | csrc/backend/NPUStream.cpp:124-149 | re-encoding a decoded native id returns it exactly when its upper 54 bits are zero |
| StreamIds.WideIndexIsTruncated | csrc/backend/NPUStream.cpp:138-149 | an index outside the pool decodes to its low five bits and does not disturb the type |
| StreamPools.NativeIdResolves | csrc/backend/NPUStream.cpp:232-264 | the id of pool p and slot i resolves to exactly that pool and slot |
| StreamPools.WrapKeepsSlot | csrc/backend/NPUStream.cpp:214-217 | the slot of a ticket is the same before and after the counter wraps at 2^32 |
| StreamPools.TicketResolvesRoundRobin | csrc/backend/NPUStream.cpp:214-287 | ticket k of a pool resolves to slot k mod 32 of that pool, for every k |
| StreamPools.SharedStreamsAre32Apart | csrc/backend/NPUStream.h:31-40 | two tickets share a stream exactly when they are of one pool and a multiple of 32 apart |
| StreamPools.TicketHandle | csrc/backend/NPUStream.cpp:166-170 | the handle of ticket k of a pool is the one slot k mod 32 of that pool was created with |
| StreamPools.NearbyTicketsDiffer | csrc/backend/NPUStream.h:31-40 | if the driver creates a pool's streams with different handles, tickets fewer than 32 apart have different handles |
| StreamPools.PriorityPools | csrc/backend/NPUStream.cpp:280-283 | priority 0 is served by pool 0, every negative priority by pool 1 |
| StreamPools.StreamPool.constructor | csrc/backend/NPUStream.cpp:151-162 | no pool exists and no ticket has been issued |
| StreamPools.StreamPool.InitDeviceStreamState | csrc/backend/NPUStream.cpp:165-185 | afterwards every slot of the device holds the handle the driver created for that pool and slot; the slots of other devices are unchanged and their tickets valid; the device's counters are zero |
| StreamPools.StreamPool.GetIdx | csrc/backend/NPUStream.cpp:214-217 | the slot is the number of tickets issued so far for this pool, through the wrapping counter |
| StreamPools.StreamPool.GetStreamFromPool | csrc/backend/NPUStream.cpp:269-287 | each request gets the next ticket of its clamped priority's pool on its device, creating the device's streams on first use and never again; a bad device raises and issues nothing |
| StreamPools.StreamPool.GetHandle | csrc/backend/NPUStream.cpp:232-264 | a native id gives the handle in its pool's slot of its device, external ids themselves, the default id the null stream; anything else raises |
| StreamPools.CurrentStreams.constructor | csrc/backend/NPUStream.cpp:195-200 | every device starts on the default stream |
| StreamPools.CurrentStreams.GetCurrentStream | csrc/backend/NPUStream.cpp:313-320 | the device's current stream, with -1 meaning the current device; a bad device raises |
| StreamPools.CurrentStreams.SetCurrentStream | csrc/backend/NPUStream.cpp:322-325 | changes the current stream of the stream's own device only |
| StreamPools.CurrentStreams.ExchangeStream | csrc/backend/NPUGuardImpl.h:68-73 | setting back the stream it returns restores the current streams of all devices |
| StorageFormats.PaddedStorageIsRounded | backends/npu/framework/FormatHelper.cpp:286-361 | in each padded format's ranks the storage product is the product of the base shape with every blocked dimension rounded up to its block, and the base shape has as many elements as the tensor |
| StorageFormats.PaddedStorageCoversTightly | backends/npu/framework/FormatHelper.cpp:508-546 | padded storage is never smaller than the tensor, and equal exactly when every blocked dimension is a multiple of its block or the tensor is empty |
| StorageFormats.LastSizeFills32Bytes | backends/npu/framework/FormatHelper.cpp:338-340 | a row of an NZ block is 32 bytes: 32 items of one byte, or 16 of any other size |
| StorageFormats.BaseFormatStoresTheBase | backends/npu/framework/FormatHelper.cpp:58-118 | a padding format's base format stores exactly the dimensions the format pads, except that ND keeps a short shape that NZ makes a matrix of |
| StorageFormats.BaseFormatsExactly | backends/npu/framework/FormatHelper.cpp:58-118 | the base format goes by the rank the format works on: NCDHW for those cut at rank 5, NCHW for those cut at rank 4, ND for NZ |
| StorageFormats.PlainStorageIsTheShape | backends/npu/framework/FormatHelper.cpp:282-286 | the formats that do not pad store the shape itself from rank 4 on, NDHWC with the channels behind the rest |
| StoragePlaces.ElementsFit | backends/npu/framework/FormatHelper.cpp:286-361 | for NC1HWC0, FRACTAL_Z, FRACTAL_NZ, NDHWC, NCDHW, NDC1HWC0 and FRACTAL_Z_3D the block place of every element of the base shape lies inside the inferred storage shape, dimension by dimension |
| StoragePlaces.PlacesDiffer | backends/npu/framework/FormatHelper.cpp:478-546 | different elements have different places |
| StoragePlaces.ExtentsAreLeast | backends/npu/framework/FormatHelper.cpp:478-546 | the inner storage dimensions are one block, and every outer one is the least that holds the last element |
| StorageFormats.LongShapesAreCut | backends/npu/framework/FormatHelper.cpp:286-301 | beyond rank 4 for NC1HWC0 and FRACTAL_Z, and 5 for the 3D formats, storage depends on the leading dimensions only |
| StorageFormats.CoversWithinRank | backends/npu/framework/FormatHelper.cpp:478-563 | within those ranks, and for the other formats at every rank, storage has room for every element |
| StorageFormats.TooLongIsNotCovered | backends/npu/framework/FormatHelper.cpp:286-361 | for every rank beyond, a tensor whose storage is too small |
| StorageFormats.CoversExactly | backends/npu/framework/FormatHelper.cpp:478-546 | storage covers all tensors of a rank if and only if the format does not cut that rank |
| StorageFormats.RepairedCoversExactly | backends/npu/framework/InferFormat.cpp:66-91 | the same after GuessStorageFormat, which makes NCDHW safe at every rank and leaves the other formats as they were |
| StorageFormats.UnitCoversExactly | backends/npu/framework/InferFormat.cpp:31-46 | the same after GuessFormatUnit, which makes no format safer |
| StorageFormats.ChannelsLastKeepsProduct | backends/npu/framework/FormatHelper.cpp:478-490 | moving the channels of a rank 5 shape to the end keeps the number of elements |
| StorageFormats.LessTo4KeepsProduct | backends/npu/framework/FormatHelper.cpp:232-276 | widening to four dimensions keeps the number of elements |
| StorageFormats.FoldedBlocksAreRounded | backends/npu/framework/FormatHelper.cpp:303-310 | folding NC1HWC0 back to four dimensions gives the rounded shape and keeps the storage size |
| StorageFormats.WidenThenNarrow | backends/npu/framework/FormatHelper.cpp:363-430 | widening and narrowing with the same base returns the shape for ranks 1 to 4, four ones for a scalar, and raises above 4 |
| StorageFormats.BaseSurvivesNCHW | backends/npu/framework/FormatHelper.cpp:432-445 | ND to NCHW ignores the storage sizes apart from their rank, and NCHW to ND brings the base shape back |
| StorageFormats.NarrowKeepsProduct | backends/npu/framework/FormatHelper.cpp:383-428 | narrowing raises exactly when it would erase a dimension other than 1 or the ranks are out of range; otherwise no element is lost |
| StorageFormats.Rank5RoundTrip | backends/npu/framework/FormatHelper.cpp:447-475 | rank 5 shapes survive ND to NCDHW and back; other ranks raise |
| StorageFormats.FormatUnitIsConsistent | backends/npu/framework/InferFormat.cpp:28-47 | the origin format is the base format of the storage format, and repairing twice is repairing once |
| StorageFormats.FormatUnitChangesExactly | backends/npu/framework/InferFormat.cpp:31-46 | a request is changed exactly at rank 4 when it is ND or of base NCDHW, and then both halves are NCHW, the guessed base format; otherwise the origin is its base |
| StorageFormats.StorageFormatChangesExactly | backends/npu/framework/InferFormat.cpp:61-91 | a storage format is changed exactly when it is NCDHW off rank 5, NCHW off rank 4, NZ below rank 2, or anything but ND for a scalar; NCDHW becomes the guessed base format, the others ND |
| StorageFormats.StorageFormatIsIdempotent | backends/npu/framework/InferFormat.cpp:58-92 | repairing a storage format twice is repairing it once; only unlisted formats raise |
| StorageFormats.StorageRaisesExactly | backends/npu/framework/FormatHelper.h:74-91 | exactly which formats, ranks and item sizes make shape inference raise |
| StorageFormats.RepairedFormatRaisesExactly | backends/npu/framework/InferFormat.cpp:58-92 | exactly when inference still raises after the repair: never for ND, NCHW, NCDHW, NC1HWC0 and FRACTAL_Z, nor for NZ with items of non-zero size |
| StorageFormats.FormatUnitRaisesExactly | backends/npu/framework/InferFormat.cpp:32-46 | the same for GuessFormatUnit, which leaves 3D formats below rank 4 unrepaired |
| StorageFormats.GuessedBaseFormatFits | backends/npu/framework/InferFormat.cpp:49-56 | the guessed base format stores the shape unchanged and both repairs leave it alone |
| StorageFormats.ComputeND | backends/npu/framework/FormatHelper.cpp:556-563 | the element-by-element loop returns the shape itself |
| StorageFormats.ComputeNDToNZ | backends/npu/framework/FormatHelper.cpp:312-347 | the loops over a growing vector compute the NZ shape of the specification for every rank, raising exactly for item size 0 |
| StorageFormats.GuessStorageSizeWhenConvertFormat | backends/npu/framework/InferFormat.cpp:94-110 | short ND shapes are extended to rank 2 before inference, which adds no element |
| StorageFormats.StorageDesc.UnsafeFormatCast | backends/npu/framework/FormatHelper.cpp:567-583 | ND to NC1HWC0 installs the inferred storage shape, the way back the base sizes, any other pair changes nothing |
| DeviceSelection.GetDeviceOnlyInitialises | csrc/backend/NPUFunctions.cpp:117-133 | GetDevice keeps what is observed and fails exactly when nothing is pending and the thread is unusable |
| DeviceSelection.SetDeviceObserved | csrc/backend/NPUFunctions.cpp:135-145 | succeeds exactly for the context's own device or one the driver agrees to; then that device is observed, used, and nothing is pending; throws exactly for a negative device and on an unusable thread; a refusal leaves the context's device observed |
| DeviceSelection.MaybeSetDeviceObserved | csrc/backend/NPUFunctions.cpp:147-153 | fails exactly for a used device that SetDevice would refuse now; d is observed afterwards exactly when it succeeded and d is not negative; an unused device's context is not created |
| DeviceSelection.ExchangeDeviceObserved | csrc/backend/NPUFunctions.cpp:157-170 | returns the device observed before and makes the new one observed; exactly when it fails |
| DeviceSelection.ExchangeTwice | csrc/backend/NPUFunctions.cpp:157-170 | exchanging there and back succeeds exactly when the driver takes the first device again, and then restores the observed device |
| DeviceSelection.MaybeExchangeObservedExactly | csrc/backend/NPUFunctions.cpp:174-192 | exactly when it throws, exactly when the target is observed afterwards, and exactly when the reported device is the one observed before |
| DeviceSelection.MaybeExchangeCanKeepOldTarget | csrc/backend/NPUFunctions.cpp:183-185 | with device 1 pending over context 0, exchanging to 0 leaves 1 observed |
| DeviceSelection.SetTargetKeepsObserved | csrc/backend/NPUFunctions.cpp:194-198 | carrying out a pending selection succeeds exactly when the driver takes it, and then does not change what is observed |
| DeviceSelection.OnDeviceKeeps | csrc/backend/NPUGuardImpl.h:97-140 | with a steady driver, record and block restore the observed device exactly when the stream's device is accepted and the event call succeeds; a failing event call leaves the thread on the stream's device |
| DeviceSelection.DestroyKeeps | csrc/backend/NPUGuardImpl.h:85-95 | with a steady driver, destroying an event of a device that is not negative restores the observed device, and warns exactly when the event's device is not accepted |
| DeviceSelection.OpRestoresUnlessLost | csrc/backend/NPUGuardImpl.h:85-140 | for every driver, an operation that neither throws nor ends the process ends on the device where it began exactly when it has not lost it at both tries, and it loses none without a warning |
| DeviceSelection.OpsRestoreUnlessLost | csrc/backend/NPUGuardImpl.h:28-140 | for every driver, a run of guards, record, block and destroyEvent that neither throws, ends the process nor loses a device ends where it began |
| DeviceSelection.DestroyRestoresExactly | csrc/backend/NPUGuardImpl.h:85-95 | for every driver: exactly when destroying an event ends the process, when it warns, and that it moves back exactly when the first device is taken at one of two tries |
| DeviceSelection.DestroyFromNowhereExactly | csrc/backend/NPUGuardImpl.h:85-95 | destroying an event on a thread without a device: device 0 is asked for twice; exactly when the process ends, that it warns otherwise, and exactly when device 0 is observed afterwards |
| DeviceSelection.EventThrowsExactly | csrc/backend/NPUGuardImpl.h:97-140 | for every driver: exactly when recording or waiting throws, and that a failing event call leaves the thread on the stream's device |
| DeviceSelection.UsedDevicesWereAgreed | backends/npu/adapter/acl_device_adapter.cpp:28-45 | whatever runs, only devices the driver agreed to on the way become used ones |
| DeviceSelection.OpsKeepValid | backends/npu/adapter/acl_device_adapter.cpp:28-40 | whatever the operations and the driver do, used devices only grow and the context is a used one |
| DeviceSelection.OpRestores | csrc/backend/NPUGuardImpl.h:28-54 | with a steady driver, an entered guard restores the observed device even when its body throws; an operation throws exactly when it, or one nested in it, cannot be carried out |
| DeviceSelection.OpsRestore | csrc/backend/NPUGuardImpl.h:28-140 | with a steady driver that accepts the observed device and the context's, a well-nested run of guards, record, block and destroyEvent throws exactly when some operation in it cannot be carried out, otherwise ends on the device where it began, and only adds used devices |
| DeviceSelection.GuardRestoresExactly | csrc/backend/NPUGuardImpl.h:53-55 | whatever runs inside it and whatever the driver does: leaving an entered guard ends the process exactly on an unusable thread, otherwise warns exactly when the old device is refused at first and restores it exactly when it is taken at the first or the second try |
| DeviceSelection.TrySetExactly | backends/npu/core/NPUException.h:23-32 | a selection under NPU_CHECK_WARN ends the process exactly where SetDevice throws, warns exactly when refused at first, and selects the device exactly when one of the two evaluations is agreed to |
| DeviceSelection.ChangingGuardIsLeft | csrc/backend/NPUGuardImpl.h:34-38 | leaving a guard for another device than the observed one does not end the process unless something inside it did |
| DeviceSelection.GuardCanWarnAndRestore | backends/npu/core/NPUException.h:23-32 | a driver that refuses once: the guard warns and restores all the same |
| DeviceSelection.GuardCanEndTheProcess | csrc/backend/NPUFunctions.cpp:138-140 | a guard for the pending device on a thread that no device can be set on ends the process when it is left |
| DeviceSelection.DeviceThread.constructor | csrc/backend/NPUFunctions.cpp:100 | nothing is pending, used or set |
| DeviceSelection.DeviceThread.AclSet | backends/npu/adapter/acl_device_adapter.cpp:28-40 | success makes d the context's device and a used one; a refusal changes neither |
| DeviceSelection.DeviceThread.AclGet | backends/npu/adapter/acl_device_adapter.cpp:11-24 | returns the context's device, after setting device 0 when there is no context |
| DeviceSelection.DeviceThread.GetDeviceOf | csrc/backend/NPUFunctions.cpp:117-133 | returns the observed device and leaves it observed |
| DeviceSelection.DeviceThread.SetDeviceTo | csrc/backend/NPUFunctions.cpp:135-145 | after success d is observed; a device that is not negative always clears the pending one; state and answer are those of SetDevice |
| DeviceSelection.DeviceThread.MaybeSetDeviceTo | csrc/backend/NPUFunctions.cpp:147-153 | after success d is observed unless negative; an unused device leaves context and used devices alone; state and answer are those of MaybeSetDevice |
| DeviceSelection.DeviceThread.ExchangeDeviceTo | csrc/backend/NPUFunctions.cpp:157-170 | after success returns the device observed before and d is observed; state and answer are those of ExchangeDevice |
| DeviceSelection.DeviceThread.MaybeExchangeDeviceTo | csrc/backend/NPUFunctions.cpp:174-192 | the pending device stays or becomes the new one, never nothing; state and answer are those of MaybeExchangeDevice |
| DeviceSelection.DeviceThread.SetTarget | csrc/backend/NPUFunctions.cpp:194-198 | success keeps the observed device; state and answer are those of SetTargetDevice |
| DeviceSelection.DeviceThread.GuardEnter | csrc/backend/NPUGuardImpl.h:28-39 | success returns the device observed before and d is observed |
| DeviceSelection.DeviceThread.TrySetTo | backends/npu/core/NPUException.h:23-32 | the selection and its second evaluation: unless the process ends or the device is lost, d is observed |
| DeviceSelection.DeviceThread.EventOn | csrc/backend/NPUGuardImpl.h:114-128 | without an exception the observed device is the one observed before; state and exception are those of OnDevice |
| DeviceSelection.DeviceThread.DestroyEvent | csrc/backend/NPUGuardImpl.h:85-95 | when it neither ends the process nor warns nor loses the device, the observed device is the one before; state and outcome are those of DestroyOnDevice |
| DeviceSelection.DeviceThread.ResetUsedDevices | backends/npu/adapter/acl_device_adapter.cpp:56-65 | succeeds exactly when no used device refuses, and then nothing is used and no context is left; a refusal keeps every device counted as used, whatever was already reset |
| YamlMerge.AddMissingMeaning | codegen/utils.py:138-141 | the merged list keeps the base list as a prefix, has exactly the items of both, and adds none twice |
| YamlMerge.AddMissingKeepsOrder | codegen/utils.py:139-141 | the appended items come in the order in which they first occur in the added list |
| YamlMerge.ListTakesIn | codegen/utils.py:138-141 | a list takes in the items of a list, the letters of a text or the keys of a dictionary, each once and in order, behind its own; any other scalar raises |
| YamlMerge.RenamedKeyExactly | codegen/utils.py:125-137 | the result never gains `official`; it has `supported` when the base has it or the added dictionary has either spelling, and any other key when either side has it |
| YamlMerge.MergeKeepsBase | codegen/utils.py:123-142 | every leaf and key of the base is kept and every base list is a prefix of the merged one |
| YamlMerge.MergeContainsAdded | codegen/utils.py:133-141 | the result contains every added item under its mapped key if no copied subtree has the key to be renamed |
| YamlMerge.MergeChangesNothingExactly | codegen/utils.py:132-142 | a merge leaves the base as it was exactly when the base already contains the added tree |
| YamlMerge.MergeKeysExactly | codegen/utils.py:133-137 | a dictionary gains exactly the mapped keys of the added one |
| YamlMerge.MergeKeysPointwise | codegen/utils.py:133-137 | when no two keys map to the same one, each is merged with the base alone, whatever the iteration order |
| YamlMerge.MergeRaisesExactly | codegen/utils.py:132-141 | for trees that spell the renamed key one way, the merge raises exactly when the shapes do not fit |
| YamlMerge.MergeIsIdempotentExactly | codegen/utils.py:123-142 | merging the same tree again changes nothing if no copied subtree has the key to be renamed, and only if, unless a dictionary spells that key both ways |
| YamlMerge.TopLevelRenameIsIdempotent | codegen/utils.py:125-131 | with the renamed key at the top level only, the merge is idempotent in its second argument |
| YamlMerge.NestedOfficialIsNotIdempotent | codegen/utils.py:134-137 | a nested `official` copied by the first merge is renamed by the second, when the second is given an equal tree parsed separately (with the same object, which the result then shares, it raises) |
| YamlMergeOrder.PairsPointwise | codegen/utils.py:133-137 | each key of a dictionary ends up with what was sent to it, merged in turn, whatever goes to the other keys |
| YamlMergeOrder.MergeRaisesInOrder | codegen/utils.py:132-141 | for all trees and every iteration order, the merge raises exactly when the shapes do not fit, trees of both spellings in turn |
| YamlMergeOrder.MergeIsIdempotentInOrder | codegen/utils.py:123-142 | for all trees and every iteration order, merging an equal tree again is merging once exactly when every list and key the tree asks for is in the base or in what was sent there |
| YamlMerge.MergeYaml | codegen/utils.py:123-142 | the nested loops compute the specified merge for every iteration order, errors included |
| LazyInit.DrainRunsEverythingOnce | torch_backend/backend/__init__.py:154-163 | a drain succeeds exactly when no call, queued or nested, raises, and has then run each of them exactly once in the order of the final queue |
| LazyInit.LastStartedRaises | torch_backend/backend/__init__.py:155-163 | a drain that fails has just started the first call that raises |
| LazyInit.DeferredRunLater | torch_backend/backend/__init__.py:131-136 | in a drain that succeeds, what a call defers runs after that call |
| LazyInit.SameCallsSameFailure | torch_backend/backend/__init__.py:155-163 | queues that agree on the calls started fail at the same call |
| LazyInit.RetryRunsTheSameCallsAgain | torch_backend/backend/__init__.py:187-192 | after a failed attempt the next one starts from the first call again and, as long as the cause remains, fails at the same call |
| LazyInit.DrainAddsDeferred | torch_backend/backend/__init__.py:155-157 | the queue has grown by exactly what the calls started have deferred, the failing one included |
| LazyInit.RetryRunsDeferredCallsTwice | torch_backend/backend/__init__.py:187-193 | once the cause has gone the retry succeeds and runs every call of the original queue once, and whatever the first attempt had deferred once more |
| LazyInit.OneFailureOneDuplicate | torch_backend/backend/__init__.py:155-163 | the smallest case: a call that defers another and fails once makes the other run twice |
| LazyInit.RunNowRunsEverythingOnce | torch_backend/backend/__init__.py:125-127 | calls made after initialisation succeed exactly when none raises, nested ones included, and each has then run exactly once |
| LazyInit.RunNowStopsExactly | torch_backend/backend/__init__.py:125-127 | calls made after initialisation start in depth-first order, each before those nested in it; they stop exactly when the first call that raises has been gone through with everything nested in it |
| LazyInit.NpuState.constructor | torch_backend/backend/__init__.py:107-112 | nothing is initialised and nothing is queued |
| LazyInit.NpuState.Invoke | torch_backend/backend/__init__.py:157 | a call made during the drain appends what it defers to the queue; made afterwards it runs that at once |
| LazyInit.NpuState.LazyCall | torch_backend/backend/__init__.py:125-130 | queues the call before initialisation and runs it at once, nested calls in depth-first order, after it |
| LazyInit.NpuState.LazyInit | torch_backend/backend/__init__.py:153-193 | runs the growing queue in order; initialised exactly on success; a second or re-entrant call does nothing; a bad fork or a driver failure raises before any call runs |
| QuantMatmul.BroadcastMeans | torch_backend/meta/__init__.py:495-504 | the reference: right-aligned broadcasting succeeds exactly when sizes agree or one is 1 at every place, and takes the size that is not 1 |
| QuantMatmul.InferBatch | torch_backend/meta/__init__.py:486-504 | the loop raises exactly when two sizes above 1 differ; otherwise every right-aligned place has the larger size and the batch value is their product |
| QuantMatmul.AgreesWithBroadcastExactly | torch_backend/meta/__init__.py:495-504 | the inferred batch, or error, is PyTorch's broadcast exactly when two sizes clash or no size 0 meets another size |
| QuantMatmul.LoneZeroIsAccepted | torch_backend/meta/__init__.py:498-502 | an empty batch is accepted against 5, and against 1 is given one matrix |
| QuantMatmul.BiasCheckedExactly | torch_backend/meta/__init__.py:339-367 | the bias checks together accept exactly [n], or [batch, 1, n] with a result of rank 3 |
| QuantMatmul.ChecksAreTheTable | torch_backend/meta/__init__.py:426-482 | the dtype checks together are a table by output dtype |
| QuantMatmul.ChecksAreTheFit | torch_backend/meta/__init__.py:339-423 | the shape checks together are: ranks 2 to 6, equal inner sizes, [1] or [n] for scale and offset, [m] for the per-token scale, batches that do not clash, and a bias that fits |
| QuantMatmul.ResultIsMatmulShapeExactly | torch_backend/meta/__init__.py:495-508 | the shape answered is that of PyTorch's product of stacks of matrices exactly when no batch size 0 meets another size |
| QuantMatmul.NpuQuantMatmul | torch_backend/meta/__init__.py:485-531 | succeeds exactly for fitting shapes and for the dtypes of a table by output dtype; the result is the inferred batch, the rows of x1 and the columns of x2 |
| QuantMatmul.OperandsBroadcastOntoResult | torch_backend/meta/__init__.py:370-423 | in an accepted call bias, scale, offset and the per-token column broadcast onto the result without growing it |

## Left out

- Weak memory: interleavings are sequentially consistent; unfenced reads of plain fields are not modelled below that.
- Eventfd failures other than EINTR, and the counter's upper bound, at which a write would block.
- The branches for a queue that was never initialised or whose consumer thread is not joinable.
- Clients that go on after the destructor has started: their rewind could fall between the two loads of a consumer's test that is one step in the model.
- Thread start: naming the thread, and setting the device in StartConsume, whose failure is only logged.
- TaskQueueTheorems.NoDeadlock: says that some thread can make progress, not that a given call returns, which would need a fair scheduler. It speaks of steps whose eventfd call is not interrupted.
- TaskQueueFailures.LoneClientIsCovered: one client; with several, another client's rewind can empty or refill the ring without a notification.
- A Release callback is modelled as one push of the slot's content; callbacks that push more or nothing are not.
- QueueObjects.ReleaseQueue.PushToReleaseQueue: the releaser is modelled by one pop after each failed write; the free interleaving is in TaskQueue.
- Error texts, logs, GetPara and the list of devices in the peer-to-peer warning.
- Event and peer-to-peer calls with a null event, a device index that differs from the stream's, and the device guard around aclrtDeviceEnablePeerAccess.
- StreamPools.StreamPool.GetStreamFromPool: positive priorities, for which the source indexes out of range.
- Streams: failing stream creation, handles of devices whose pool was never created, current streams of other threads, destroying streams.
- Shapes with negative sizes, and overflow of 64-bit products.
- The tensor wrappers around the format functions, which read the format and sizes out of a descriptor, and the names in the format table.
- Device selection by several threads at once; the map of used devices is shared, the rest is per thread. GetDeviceContext and device counts.
- YamlMergeOrder.MergeIsIdempotentInOrder: by value, like every statement about merging twice; merging the same object twice can meet subtrees the first merge has shared and changed.
- YamlMerge.MergeYaml: works on values; aliasing between the trees, and the part of an in-place merge done before an exception, are not modelled. Items are compared structurally, so Python's True == 1 is not reflected.
- YamlMerge.MergeRaisesExactly: for trees that spell the renamed key one way; YamlMergeOrder.MergeRaisesInOrder covers the rest.
- YamlMerge.MergeIsIdempotentExactly: one half is for such trees; YamlMergeOrder.MergeIsIdempotentInOrder covers the rest.
- StorageFormats.NarrowKeepsProduct: for storage ranks below 4 the source reads a reference to a temporary shape after its lifetime (backends/npu/framework/FormatHelper.cpp:369-372); the model takes the widened shape it was meant to be.
- LazyInit.NpuState.LazyInit: one thread; the lock, the second test under it and other threads waiting for it are not modelled. A call defers others before it raises. LazyInit.RetryRunsDeferredCallsTwice takes a failure that disappears as a whole.
- Quantised product: which error is raised first, and its text. The other meta kernels are shape copies.
- The allocators, generators, events, hooks, code templates and build files: delegates and tables, or rests on code that is not in the repository.
