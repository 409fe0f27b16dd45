# cl-async: a verified model

This project models four parts of the cl-async runtime, and two small companions, and proves
what they keep. `dafny verify dfyconfig.toml` checks all of it.

**The worker** (`WorkerLoop`, `WorkerMail`, `WorkerSafety`, `WorkerTasks`, `WorkerKeys`,
`Worker`, `WorkerShutdown`, `WorkerOrder`, `WorkerThread`, `WorkerSolo`, with `Executor`, `IoContext`, `Completion`, `CompletionQueue`,
`CompletionSplit`).
`worker_loop`, its shutdown loop included, is a step machine: one step for each poll of events,
completion reaped, submission retried, message received, task polled. Between any two of them
callers may push and signal messages, the kernel may post completions and raise the io edge, and
pollers may take results. `Worker` proves one joint invariant over the channel, the edges, the
ready, running and completed tasks, the ring, the backlog, the slots and the lifecycle state, and
reads the main results off it. `WorkerThread` puts the loops around the steps and proves that each
iteration ends, whatever finite number of steps others take in between. `WorkerSolo` ties the steps
to the sequential functions that the classes of the ring, the completion queue and the executor
are proved against.

**The synchronisation primitives** (`Words`, `Wakers`, `Semaphore`, `SemaphoreLedger`, `SemaphoreWakers`,
`SemaphoreRelease`, `RwLock`, `AsyncMutex`). Every load, compare-exchange, fetch_add, push and pop is a step; a run is any
sequence of steps by any number of futures and guards. A step that is not possible changes
nothing, so a statement about all step sequences is one about all interleavings.

**The control-message codec** (`Layout`, `ControlMessage`, `ControlBuffer`, `ControlRoundTrip`,
`ControlReceive`, `ControlMalformed`):
printers and parsers over bytes, with the alignment of sections 5.1 to 5.3 of RFC 3542 as
64-bit Linux has it. Padding bytes are arbitrary throughout.

**The address text codec** (`Text`, `AddressText`, `Address`, `AddressRoundTrip`, `AddressCapitals`,
`AddressInputs`): compression,
expansion, parsing and display of IPv6 text (section 2.2 of RFC 4291, section 4 of RFC 5952).

**Companions**: `Scatter`, the accounting of vectored reads, and `Pool`, the round-robin choice
of a worker.

Code that changes objects step by step is a class, or a method with a loop, proved against a
function; the laws are lemmas about the functions. A `Variant` named `ConsumesHoard` is the
intended behaviour of a hungry grant, not the source's; it is kept to compare the two.

## What was found

Where a law fails, the model keeps the code, one lemma gives the exact condition, and another a
concrete input or run that fails.

- A hungry future that is granted keeps its hoard and returns it again when it is dropped, so
  permits are invented: `SemaphoreLedger.InventedPermit`, and exactly when:
  `SemaphoreLedger.ConservationExact`. A reader can then join a writer: `RwLock.ReaderJoinsWriter`,
  and exactly when: `RwLock.WriteGrantExact`.
- Cloning a `MutexGuard` breaks exclusion: `AsyncMutex.CloneBreaksExclusion` and
  `AsyncMutex.ExclusionExact`. A waker of a future that
  was granted or dropped can absorb the only wake: `AsyncMutex.StaleWakerStrands`, and exactly when
  a free lock is left with a sleeper: `AsyncMutex.FreeLockIsNoticed`.
- An address whose longest zero run is one group at an edge is displayed with an empty part that
  `v6` does not recognise, and is taken for a host name: `AddressRoundTrip.DisplayRoundTrip` and `AddressRoundTrip.EdgeExample`.
- The prefix of mapped addresses is only recognised in small letters: `AddressCapitals.CapitalMapped`,
  and exactly when capitals are read: `AddressCapitals.CapitalDisplay`.
- A poll of an operation of no duration that is completed answers Pending, drops the slot, and
  leaves no waker behind: `Completion.PendingIsRegistered` and `Completion.CompletedPollIsLost`.
- A poll of an operation that is submitted but not prepared yet is told that there is no such
  operation, which src/io/operation/future.rs:42-62 turns into an error: `Worker.UnsentIsUnknown`,
  `Worker.BackloggedIsUnknown`, and exactly when: `Worker.UnpreparedIsUnknown`.
- A vectored read with a full buffer in front of its end exposes bytes the kernel never wrote:
  `Scatter.FullBufferHidesByte` and `Scatter.ScatterExact`.
- A worker that receives Kill after Shutdown in one iteration ends without broadcasting Kill:
  `Worker.KillBroadcast` and `Worker.KillAfterShutdown`.
- The round-robin counter can skip the only usable worker when it wraps: `Pool.WrapMissesWorker`
  and `Pool.RoundRobinExact`.
- The two control-message walkers differ on the empty buffer: `ControlRoundTrip.WalkersAgree`. Bytes
  behind the last message make the slice walker read outside the buffer:
  `ControlRoundTrip.ReceivedList`.
- Microseconds of a received timestamp wrap around in 32 bits from 4294968 on:
  `ControlReceive.MicrosWrap`.

## Model

| member | source | states |
|---|---|---|
| Worker.Reachable | src/worker/mod.rs:527-853 | the joint invariant holds after every interleaving of the worker with callers, kernel and pollers |
| Worker.NeverBlocksOverWork | src/worker/mod.rs:565-785 | when the worker polls for events no task is ready or in a poll, each running task woken since its last poll began has its wake in the channel or with a sender, and a non-empty channel has an unconsumed edge or a sender that is about to signal |
| Worker.BacklogNotStranded | src/worker/mod.rs:688-783 | between two iterations of the main loop the ring is empty, and a waiting submission implies an operation in flight, or an unreaped completion whose edge is raised or about to be |
| Worker.TaskPartition | src/task/executor.rs:27-69 | every task id handed out is exactly once in the messages on their way, the ready queue, the current poll, the running or the completed tasks; cached wakers are exactly those of tasks polled and not completed |
| Worker.GracefulExit | src/worker/mod.rs:809-848 | on leaving the shutdown loop without Kill the completed tasks are exactly those that were received |
| Worker.LifecycleLanguage | src/worker/mod.rs:377-416 | stored states follow the lifecycle relation; after Stopping only Stopping and Stopped are stored; no iteration begins once Stopping is stored; a start succeeds exactly from the initial state |
| Worker.KillBroadcast | src/worker/mod.rs:407-416 | a finished worker has broadcast Kill if and only if it was killed in the shutdown loop or never stored Stopping |
| Worker.KillAfterShutdown | src/worker/mod.rs:720-728 | a run in which the worker receives Shutdown and then Kill in one iteration, and ends without having broadcast Kill |
| Worker.KeyPartition | src/worker/mod.rs:516-525 | every submission key handed out is exactly once on its way, in the backlog, in a slot or retired; no other key is anywhere |
| Worker.UnpreparedIsUnknown | src/io/completion_queue.rs:82-92 | in every run a poll of an issued key answers that there is no such operation if and only if the key is on its way, in the backlog or retired |
| Worker.UnsentIsUnknown | src/io/submission_queue.rs:26-47 | a run in which an operation is submitted, not yet sent, and a poll of its key answers that there is none |
| Worker.BackloggedIsUnknown | src/worker/mod.rs:516-525 | a run in which an operation waits behind a full ring of one place, and a poll of its key answers that there is none |
| Worker.SlotsAreFresh | src/io/context.rs:51-68 | a prepared submission never overwrites a live slot |
| Worker.DeliveredOnce | src/io/completion_queue.rs:82-134 | in the worker, the slot of an operation of one result is gone exactly when its one completion was reaped and its result given to exactly one poll |
| Worker.MultishotInOrder | src/io/completion.rs:76-152 | in the worker, a persistent operation delivers a prefix of what arrived, and its slot is gone exactly when a cancellation other than the first result arrived and all was delivered |
| WorkerShutdown.ShutdownReceives | src/worker/mod.rs:809-838 | in every run the shutdown loop takes what is in the channel, and goes on to submit if and only if it has found it empty |
| WorkerShutdown.RingIsSubmitted | src/worker/mod.rs:778-845 | in every run, in both loops, what was prepared has been submitted before the loop reaps, runs a task or ends |
| WorkerShutdown.SubmitHasWork | src/worker/mod.rs:692-783 | the main loop submits only what it prepared or what found the ring full |
| WorkerShutdown.KillIsObeyed | src/worker/mod.rs:723-725 | a Kill that is received ends either loop at once, and only the shutdown loop stores Stopped for it |
| WorkerShutdown.ShutdownIsObeyed | src/worker/mod.rs:726-728 | a Shutdown that is received stores Stopping in the main loop, and is ignored in the shutdown loop |
| WorkerShutdown.StopIsObeyed | src/worker/mod.rs:656-664 | a signal that asks to stop stores Stopping behind Busy, and nothing else does at that point |
| WorkerShutdown.EventsDecide | src/worker/mod.rs:595-606 | without the edge of the channel an iteration takes no message, and without that of the ring it reaps nothing |
| WorkerShutdown.MainLoopEnds | src/worker/mod.rs:787-807 | at its end an iteration of the main loop leaves it if and only if Stopping was stored, with both edges drained |
| WorkerShutdown.DrainedExact | src/worker/mod.rs:846-847 | a round of the shutdown loop is its last if and only if every task that was received is complete |
| WorkerOrder.PolledInOrder | src/task/executor.rs:27-42 | in every run tasks are polled in the order in which they became ready, by being spawned or woken |
| WorkerOrder.SubmittedAsIssued | src/io/submission_queue.rs:26-47 | in every run submissions keep their duration and waker through channel, backlog and slot |
| WorkerOrder.CompletionWakesWaiter | src/io/completion_queue.rs:50-52 | in every run the first completion of an operation wakes its last poller, or the waker it was submitted with |
| WorkerSafety.LifecycleStep | src/worker/mod.rs:573-598 | every step keeps the stored states in order and in accord with the position in the loops |
| WorkerSafety.AnnouncedEnvironment | src/worker/work_sender.rs:39-54 | pushing, signalling and everything else callers and kernel do keeps every message in the channel announced |
| WorkerSafety.AnnouncedWorker | src/worker/mod.rs:595-776 | no step of the worker consumes an edge and leaves messages behind unannounced |
| WorkerSafety.BacklogWorker | src/worker/mod.rs:688-774 | no step of the worker leaves a backlog without an operation, a completion or a retry to come |
| WorkerTasks.TasksStep | src/task/executor.rs:27-69 | every step keeps each task id in one place |
| WorkerKeys.KeysStep | src/worker/mod.rs:688-722 | every step keeps each key in one place and the slots equal to their history |
| WorkerKeys.OneShotStep | src/io/context.rs:83-91 | the one completion of an operation that is not persistent is in the ring, in flight, in the queue or reaped, and only once |
| WorkerThread.Thread.Iterate | src/worker/mod.rs:569-797 | an iteration of the main loop ends after finitely many steps, before the next iteration, in the shutdown loop or outside, and is a run of the step machine |
| WorkerThread.Thread.ReceiveAndSubmit | src/worker/mod.rs:810-842 | a round of the shutdown loop submits the whole ring, and only after it has found the channel empty |
| WorkerThread.Thread.ShutDown | src/worker/mod.rs:809-848 | an iteration of the shutdown loop receives all messages, submits, reaps and runs, ends before the next or outside, and is a run of the step machine |
| WorkerThread.Thread.RetryWaiting | src/worker/mod.rs:692-698 | the retry loop ends, and goes on to receive |
| WorkerThread.Thread.ReceiveAll | src/worker/mod.rs:703-776 | the receive loop ends, even while senders push, with the channel empty at its last look or a Kill received |
| WorkerThread.Thread.RunReadyTasks | src/task/executor.rs:31-35 | the loop over ready tasks ends although tasks wake each other while it runs |
| WorkerThread.ThreadKeeps | src/worker/mod.rs:569-848 | whatever the loops do, the joint invariant holds |
| WorkerSolo.RetryIsSolo | src/worker/mod.rs:692-698 | undisturbed, the retry steps move the backlog as the retry function does, and ask for a submit exactly if the ring grew |
| WorkerSolo.ReapIsSolo | src/io/context.rs:83-91 | undisturbed, the reap steps apply exactly the completions that were seen, in order |
| WorkerSolo.CompleteIsSolo | src/io/context.rs:83-91 | undisturbed, both loops reap every completion that was posted, in order |
| WorkerSolo.RunIsSolo | src/task/executor.rs:31-35 | undisturbed, the run steps poll each ready task once, as the executor does |
| Executor.RunAllAnswers | src/task/executor.rs:31-35 | running polls each ready task once: none is ready afterwards, those whose poll did not answer Ready are running, the others are completed |
| Executor.RunAllOk | src/task/executor.rs:31-69 | running loses and doubles no task, and the waker cache stays that of the live polled tasks |
| Executor.WakeOk | src/task/executor.rs:37-42 | a wake moves a running task and drops every other wake; no task is lost or doubled |
| Executor.TaskExecutor.WakeTask | src/task/executor.rs:37-42 | the executor after a wake, in terms of the one before |
| Executor.TaskExecutor.RunReadyTasks | src/task/executor.rs:31-35 | the loop over the ready queue does what running all ready tasks does |
| IoContext.RetryMoves | src/worker/mod.rs:692-698 | the retry loop moves, in order, as many submissions as the ring has room for; what is left is rotated by one and then the ring is full |
| IoContext.Context.Prepare | src/io/context.rs:51-68 | a full ring hands the submission back and changes nothing; otherwise the entry is pushed and its slot added |
| IoContext.Context.Complete | src/io/context.rs:83-91 | every posted completion is applied to the slots in order |
| IoContext.Context.RetryWaiting | src/worker/mod.rs:692-698 | the retry loop over objects equals the retry function, and asks for a submit exactly if the ring grew |
| Completion.HistoryOk | src/io/completion.rs:76-152 | the slot of a key at every point of any run is determined by what arrived and what was delivered |
| Completion.MultishotFifo | src/io/completion.rs:76-152 | delivered results followed by queued ones are the arrivals in order; the slot is removed exactly when a cancellation that is not the first result arrived and everything was delivered |
| Completion.SingleDelivery | src/io/completion_queue.rs:82-134 | at most one poll gets the result, it is the first to arrive, and a removed slot delivered it exactly if no second completion came first |
| Completion.ZeroDelivery | src/io/entry.rs:18-34 | an operation of no duration delivers nothing; its slot stays, as Completed after the completion, exactly until the next poll or completion of its key |
| Completion.PendingIsRegistered | src/io/completion_queue.rs:96-112 | a Pending answer leaves the poller's waker to be woken by the next completion if and only if the slot was not one that is Completed |
| Completion.CompletedPollIsLost | src/io/completion.rs:150 | a completed operation of no duration that is polled answers Pending, and its slot is gone with the waker |
| Completion.CompletionWakes | src/io/completion_queue.rs:42-55 | in every run a completion wakes the last poller that was told to wait, or else the waker of the submission, whether the slot stays or goes |
| Completion.FirstCompletionWakes | src/io/completion_queue.rs:115-122 | the first completion of an operation wakes its last poller, and the waker given at submission if nobody has polled |
| Completion.CancelledRun | src/io/completion.rs:88-96 | result code -125 after another result ends a persistent operation, once both results are delivered |
| Completion.RunningRun | src/io/completion.rs:78-96 | as the first result it does not, nor does any other error |
| CompletionSplit.LateRemovalIsUnseen | src/io/completion_queue.rs:82-134 | removing a slot only after the map was released, with any steps of others in between, leaves the same live slots and the same answer to every poll as removing it at once |
| CompletionQueue.IoCompletionSlot.Complete | src/io/completion_queue.rs:42-55 | the slot's next state, whether it is still valid, and that its waker is woken either way |
| CompletionQueue.IoCompletionSlot.TryExtractResult | src/io/completion_queue.rs:57-66 | takes the next result out, and fails exactly without a state |
| CompletionQueue.IoCompletionQueue.Poll | src/io/completion_queue.rs:82-113 | the map of slots and the answer after a poll, all other slots unchanged |
| CompletionQueue.IoCompletionQueue.AddEntry | src/io/completion_queue.rs:115-122 | a fresh slot with the duration and the waker of the submission, all others unchanged |
| CompletionQueue.IoCompletionQueue.Complete | src/io/completion_queue.rs:125-134 | the map of slots after a completion, and true exactly if the slot was removed |
| SemaphoreLedger.Ledger | src/sync/semaphore.rs:25-80 | in any run available permits, live permit weights and hoards sum to the start plus the surplus of every hungry grant, less the wraps of machine words |
| SemaphoreLedger.Conservation | src/sync/semaphore.rs:25-138 | without a hoarded grant no permit is lost or invented and no word wraps, cancelled futures included |
| SemaphoreLedger.ConservationExact | src/sync/semaphore.rs:44-51 | permits are conserved at every point of a run if and only if no grant happens with a hoard that counts |
| SemaphoreLedger.PoliteConserves | src/sync/semaphore.rs:93-101 | runs of polite futures only conserve permits at every point |
| SemaphoreLedger.ConsumingConserves | src/sync/semaphore.rs:44-51 | if grants consumed the hoard, every run would conserve permits (intended variant) |
| SemaphoreLedger.InventedPermit | src/sync/semaphore.rs:130-138 | a run of two permits after which, everything dropped, the semaphore holds three, or two in the intended variant |
| SemaphoreWakers.PendingIsKnown | src/sync/semaphore.rs:72-78 | a future whose last poll was Pending has that poll's waker queued or already woken, in every interleaving |
| SemaphoreWakers.EmptyQueueAllWoken | src/sync/semaphore.rs:291-300 | when a release finds the queue empty every waiting future has been woken |
| SemaphoreWakers.NoMissedRelease | src/sync/semaphore.rs:33-79 | from the last look at the counter before Pending on, the waker is queued or woken at every moment |
| SemaphoreRelease.PermitReleaseWakes | src/sync/semaphore.rs:8-12 | dropping a permit of weight n adds n permits, and its n pops wake the n longest-waiting wakers, or all if there are fewer |
| SemaphoreRelease.FutureReleaseWakes | src/sync/semaphore.rs:130-138 | dropping a future does the same with its hoard, and nothing without one |
| SemaphoreRelease.PopsWake | src/sync/semaphore.rs:293-299 | any number of pops of a release wakes as many from the front, and a pop that finds nobody ends the release |
| SemaphoreRelease.WokenInOrder | src/sync/semaphore.rs:72-78 | over every run wakers are woken in the order in which they were queued |
| SemaphoreRelease.QueuedPollEnds | src/sync/semaphore.rs:42-79 | once its waker is queued a poll ends after one more look at the counter, whatever others do meanwhile |
| SemaphoreRelease.LostRaceLooksAgain | src/sync/semaphore.rs:51-67 | before that, a lost compare-exchange makes it look again |
| SemaphoreRelease.StaleHoard | src/sync/semaphore.rs:52-65 | a queued hungry future that lost the race for its grant hoards the stale value, and may wait with all it asked for |
| SemaphoreWakers.SemaphoreInner.AddPermits | src/sync/semaphore.rs:291-300 | the counter grows, with wrap-around, and the n longest-waiting wakers are woken, or all if there are fewer |
| SemaphoreWakers.SemaphoreInner.SemFut | src/sync/semaphore.rs:25-80 | an undisturbed poll: grant, hoard or wait, with the balance of permits and hoard |
| SemaphoreWakers.SoloGrant | src/sync/semaphore.rs:44-51 | an undisturbed poll with enough permits is granted by the step machine as by the loop |
| SemaphoreWakers.SoloWait | src/sync/semaphore.rs:57-78 | an undisturbed poll without enough permits hoards, queues its waker and waits, as the loop does |
| RwLock.Exclusion | src/sync/rw_lock.rs:54-84 | in runs without a hoarded grant a live writer is alone, readers never exceed the maximum, the counter never exceeds its initial value and fetch_add never wraps, even for usize::MAX |
| RwLock.ConsumingExclusion | src/sync/rw_lock.rs:61-84 | if grants consumed the hoard, every run would be exclusive (intended variant) |
| RwLock.ReaderJoinsWriter | src/sync/rw_lock.rs:70-84 | a run of reads and writes of a lock of two permits in which a live reader stands beside a live writer |
| RwLock.WriteGrantExact | src/sync/rw_lock.rs:78-84 | a write grant leaves the lock exclusive in every continuation if and only if the writer held no hoard at the grant |
| AsyncMutex.ExclusionExact | src/sync/mutex.rs:51-54 | after a run without clones, every clone-free continuation of one more step is exclusive if and only if that step does not clone a live guard |
| AsyncMutex.CloneBreaksExclusion | src/sync/mutex.rs:51-54 | a run after which the clone of the one live guard leaves a mutex that some clone-free continuation makes non-exclusive |
| AsyncMutex.PendingIsKnown | src/sync/mutex.rs:121-135 | a future past its first check, or waiting, has its latest waker queued or woken |
| AsyncMutex.StrandingStep | src/sync/mutex.rs:77-83 | a step leaves a free lock with a sleeper and nobody on the way to it if and only if it absorbs the last wake |
| AsyncMutex.FreeLockIsNoticed | src/sync/mutex.rs:77-138 | at every point of a run a free lock with a sleeping future has a future on its way to take it, if and only if no step of the run absorbs the last wake of a sleeper |
| AsyncMutex.StaleWakerStrands | src/sync/mutex.rs:77-83 | a run without cloned guards or dropped futures in which a stale waker absorbs the only wake and a free lock leaves a future asleep |
| AsyncMutex.SoloPoll | src/sync/mutex.rs:101-136 | an undisturbed poll of the step machine takes a free lock, and otherwise queues its waker and waits |
| AsyncMutex.SoloDrop | src/sync/mutex.rs:77-83 | an undisturbed drop unlocks and wakes the longest-waiting waker |
| AsyncMutex.MutexInner.Poll | src/sync/mutex.rs:98-136 | an undisturbed poll takes the lock exactly if it is free and otherwise queues its waker once |
| AsyncMutex.MutexInner.DropGuard | src/sync/mutex.rs:77-83 | unlocks and wakes the first queued waker, if any |
| ControlRoundTrip.SliceRoundTrip | src/io/message.rs:1183-1204 | for any preparable list and any padding, parsing the prepared buffer gives the normal forms or the first unparseable message's error, reads nothing outside the buffer and always moves forward |
| ControlRoundTrip.ReceivedList | src/io/message.rs:1183-1222 | whoever made the buffer, both walkers parse each message up to the first error; trailing bytes are read outside the buffer by one and not seen by the other |
| ControlRoundTrip.RoundTripExact | src/io/message.rs:1250-1292 | the round trip succeeds if and only if no message sets a TLS record type, and then gives every message in its normal form |
| ControlRoundTrip.WalkersAgree | src/io/message.rs:1183-1222 | the slice walker and the msghdr walker agree on a prepared buffer if and only if it is not empty |
| ControlRoundTrip.NormalFormsSurvive | src/io/message.rs:516-562 | lists in normal form come back unchanged |
| ControlMessage.MessageRoundTrip | src/io/message.rs:516-940 | every message that can be prepared parses back to its normal form, except the TLS record type |
| ControlMessage.ClassRoundTrip | src/io/message.rs:947-1029 | a traffic class survives its byte, with a code point of six bits under its name |
| ControlMessage.PacketInfoRoundTrip | src/io/message.rs:169-225 | packet info survives, reversed IPv4 bytes restored, and IPv6 loses the specific destination |
| ControlMessage.NormalIdempotent | src/io/message.rs:574-940 | a normal form is its own normal form, so a second round trip changes nothing |
| ControlReceive.PreparableExact | src/io/message.rs:679-940 | which messages can be prepared, in the sender's terms, and the error of each other one |
| ControlReceive.DetailedTimes | src/io/message.rs:637-668 | software and hardware time are the first and third of three timespecs |
| ControlReceive.NanosCarry | src/io/message.rs:620-636 | a timespec keeps its nanoseconds, and carries full seconds |
| ControlReceive.MicroTime | src/io/message.rs:601-618 | a timeval keeps its microseconds |
| ControlReceive.MicrosWrap | src/io/message.rs:610-613 | microseconds are multiplied in 32 bits, with carry and wrap-around |
| ControlReceive.TimesBeforeEpoch | src/io/message.rs:610-633 | negative seconds are out of range |
| ControlReceive.WrongTimestampCounts | src/io/message.rs:647-652 | any other number of timespecs is refused, with that number |
| ControlReceive.RecordTypeReceived | src/io/message.rs:1087-1096 | the five record types are read, and other values are no record type |
| ControlReceive.SocketErrorsReceived | src/io/message.rs:761-886 | extended errors come as errors at both levels |
| ControlReceive.ClassReceived | src/io/message.rs:860-870 | only the lowest byte of a traffic class counts |
| ControlReceive.WrongLengths | src/io/message.rs:307-320 | a payload of the wrong length is refused with both lengths |
| ControlReceive.BrokenArrays | src/io/message.rs:284-305 | arrays of broken elements are refused |
| ControlReceive.UnknownKinds | src/io/message.rs:532-561 | unknown levels and unknown types of a level are refused |
| ControlReceive.RightsWire | src/io/message.rs:689-697 | descriptors on the wire, byte by byte |
| ControlReceive.TimestampWire | src/io/message.rs:707-718 | a timestamp on the wire, in microseconds |
| ControlReceive.V4InfoWire | src/io/message.rs:193-215 | IPv4 packet info on the wire |
| ControlReceive.AssuredPoints | src/io/message.rs:1012-1023 | assured forwarding has the code points of RFC 2597 |
| ControlReceive.SelectorPoints | src/io/message.rs:1002-1011 | class selectors and expedited forwarding have theirs |
| ControlMalformed.BufferWire | src/io/message.rs:1263-1287 | one message in its buffer, byte by byte |
| ControlMalformed.ShortHeader | src/io/message.rs:1160-1168 | a length below that of the header is refused by both walkers |
| ControlMalformed.LongMessage | src/io/message.rs:1170-1180 | a message beyond the buffer is refused by its level, type and length, or read outside the buffer |
| ControlMalformed.TruncatedNext | src/io/message.rs:1214-1219 | a header that claims more than is left is not seen by the header walker |
| ControlMalformed.WalkEnds | src/io/message.rs:1192-1201 | the slice walker ends on every slice of less than four gibibytes |
| ControlBuffer.PreparedConcat | src/io/message.rs:1250-1292 | preparing a concatenation is concatenating prepared parts, padding aside, in both directions |
| ControlBuffer.PreparedOne | src/io/message.rs:1224-1248 | a buffer of one message is exactly one cell |
| ControlBuffer.FitsExact | src/io/message.rs:1257-1260 | the payloads that the buffers are proved for are exactly those whose space does not wrap in 32 bits |
| ControlBuffer.TryPrepare | src/io/message.rs:1224-1248 | a single message is prepared as a list of one is, with the same error |
| ControlBuffer.TryPrepareMulti | src/io/message.rs:1250-1292 | the buffer the two loops write holds exactly the messages given; the first error is returned |
| ControlBuffer.FillCells | src/io/message.rs:1263-1287 | the second loop writes every header and payload at its offset and leaves those before it alone |
| ControlBuffer.TryParseFromSlice | src/io/message.rs:1183-1204 | the loop over offsets computes the walk |
| ControlBuffer.TryParseFromMsghdr | src/io/message.rs:1206-1222 | the loop over header pointers computes the walk |
| AddressRoundTrip.DisplayRoundTrip | src/net/address.rs:554-596 | for every address, parsing its display gives it back if and only if it is not an unmapped V6 address with a single zero group at an edge as its longest zero run |
| AddressRoundTrip.EdgeAsksResolver | src/net/address.rs:384-390 | addresses of that class are handed to the resolver |
| AddressRoundTrip.EdgeExample | src/net/address.rs:384-390 | 0:1:1:1:1:1:1:1 is displayed as ":0:1:1:1:1:1:1:1" and handed to the resolver |
| AddressRoundTrip.CompressedParses | src/net/address.rs:144-161 | a display that elides a run parses back through the compressed route |
| AddressRoundTrip.UncompressedParses | src/net/address.rs:144-161 | a display that elides nothing parses back through the uncompressed route |
| AddressRoundTrip.MappedParses | src/net/address.rs:432-446 | a mapped address parses back through the mapped route |
| AddressRoundTrip.UncompressCompress | src/net/address.rs:326-507 | expansion inverts compression for all eight groups of four characters, whatever the characters, the edge class included |
| AddressRoundTrip.UncompressCompressText | src/net/address.rs:326-507 | expansion inverts compression for every text that splits into eight such groups |
| AddressRoundTrip.UncompressedReadsBack | src/net/address.rs:509-538 | sixteen bytes survive their text, with or without leading zeros |
| AddressCapitals.CapitalGroup | src/net/address.rs:517-520 | a group in capitals has its value |
| AddressCapitals.CapitalsParse | src/net/address.rs:554-576 | a text without dots is an address in capitals if and only if it is one as it stands, and the same |
| AddressCapitals.CapitalDisplay | src/net/address.rs:144-161 | the display of a V6 address in capitals parses back if and only if the address is neither mapped nor in the edge class |
| AddressCapitals.CapitalMapped | src/net/address.rs:411-413 | mapped addresses in capitals are rejected |
| AddressCapitals.BracketsParse | src/net/address.rs:146-148 | a text in brackets parses as without them, if its colons look like an address |
| AddressCapitals.BracketedDisplay | src/net/address.rs:144-161 | the display of a V6 address in brackets parses back if and only if the address is mapped or not in the edge class |
| AddressInputs.DotsDecide | src/net/address.rs:428-430 | without colons three dots decide between a dotted quad and a host name |
| AddressInputs.ColonsDecide | src/net/address.rs:402-426 | which texts with colons are handed to the resolver, and which conversion reads the others |
| AddressInputs.MappedDecides | src/net/address.rs:432-446 | behind the mapped prefix the dotted quad decides |
| AddressInputs.V4Errors | src/net/address.rs:300-318 | three dots, then four numbers up to 255, and the error of each |
| AddressInputs.FullErrors | src/net/address.rs:509-527 | seven colons, then eight numbers of sixteen bits, and the error of each |
| AddressInputs.FullBytes | src/net/address.rs:517-524 | each number gives two bytes, the most significant first |
| AddressInputs.CompressErrors | src/net/address.rs:328-347 | seven colons, then groups of one to four bytes, and the error of each |
| AddressInputs.GapErrors | src/net/address.rs:467-497 | missing groups, second gaps and long groups, and the error of each |
| AddressInputs.DigitsParse | src/net/address.rs:518-520 | digits stand for their value within the range, with or without a plus sign |
| AddressInputs.SpacesAround | src/net/address.rs:557 | white space around an address is not looked at |
| AddressInputs.SpacesInside | src/net/address.rs:328-332 | nor is white space around a group, in both conversions |
| AddressRoundTrip.CanonicalText | src/net/address.rs:338-392 | outside the edge class the display elides exactly the leftmost longest run of at least two zero groups, drops leading zeros and stays lower-case |
| AddressText.LongestRunIsLeftmostLongest | src/net/address.rs:349-370 | the scan finds the leftmost of the longest runs of zero groups |
| Address.ScanZeros | src/net/address.rs:349-370 | the loop over the groups computes that run |
| Address.CompressV6 | src/net/address.rs:326-395 | the loops that strip, scan, remove and insert compute the compressed text, with its errors |
| Address.UncompressV6 | src/net/address.rs:448-507 | the loops that pad and insert compute the expanded text, with its errors |
| Address.UncompressedV6AsBytes | src/net/address.rs:509-527 | the loop over eight groups computes the sixteen bytes or the error |
| Address.BytesAsUncompressedV6 | src/net/address.rs:529-538 | the loop over byte pairs computes the text |
| Address.V4BytesFromStr | src/net/address.rs:300-318 | the loop over four parts computes the four bytes or the error |
| Scatter.ScatterExact | src/io/buffers.rs:588-695 | a read of n bytes exposes exactly the bytes received, whatever they are, if and only if no full buffer stands before their end |
| Scatter.FullBufferHidesByte | src/io/buffers.rs:588-695 | one byte read into a full buffer and an empty one with room is not what becomes visible |
| Scatter.ReadKeeps | src/io/buffers.rs:671-695 | a read leaves the bytes visible before where they were |
| Scatter.RoomEverywhere | src/io/buffers.rs:671-695 | with room in every buffer the limit of `into_bytes` is the total of the spare capacities and no buffer is in the way |
| Scatter.FillIs | src/io/buffers.rs:588-615 | filling the generated pieces in order fills the buffers in order, full ones skipped |
| Scatter.ReadSizes | src/io/buffers.rs:671-695 | memory that is not visible yet stays spare |
| Scatter.PiecesExact | src/io/buffers.rs:48-57 | one to the maximum of pieces are handed out as they are, and the errors say which bound is broken |
| Scatter.GenerateIoVecs | src/io/buffers.rs:588-615 | the loop generates one piece per buffer with room, and the errors for none or too many |
| Scatter.IntoBytes | src/io/buffers.rs:671-695 | fails exactly when more bytes are claimed than the chunks hold, reporting how many they hold |
| Pool.RoundRobinExact | src/pool.rs:131-155 | a usable worker is found whenever there is one, whatever the states, if and only if the counter does not wrap among the tries or the number of workers divides 2^64 |
| Pool.UsableExact | src/pool.rs:146-150 | exactly workers that are starting, idle or busy are chosen |
| Pool.WrapMissesWorker | src/pool.rs:131-136 | three workers, one usable, and the counter at its last value: none is found |
| Pool.ThreadPool.NextWorkerId | src/pool.rs:131-136 | the id for the counter, and the counter's wrap-around |
| Pool.ThreadPool.GetNextWorker | src/pool.rs:137-155 | the first usable worker in order of visit; an error exactly if no try finds one or a try leaves the workers |

## Left out

- The worker, the semaphore and the mutex are step machines over values where threads interleave; the classes beside them are their undisturbed operations. Memory orderings weaker than sequential consistency, reference counts and pinning are not modelled.
- The worker machine polls and completes a slot in one step. `CompletionSplit` shows that a late removal is not seen; what remains unmodelled is that a completion in between wakes the slot's waker once more.
- Executor.TaskExecutor.RunReadyTasks: what a poll answers is given from outside, because tasks are opaque.
- WorkerThread.Thread.Iterate: others take finitely many steps during an iteration, because the receive loop does not end while senders never pause.
- Worker.BacklogNotStranded: assumes that a submit takes the whole ring and that signals succeed; failing signals, RepairMessageChannel and failing submits need descriptors that are not modelled.
- Worker.NeverBlocksOverWork: assumes that signals succeed, as above.
- Worker.DeliveredOnce: assumes one completion per operation that is not persistent, which is the kernel's promise.
- Worker.GracefulExit: messages still in the channel and backlog entries when the shutdown loop ends are dropped by the code and not counted as received.
- Worker.TaskPartition: a task that a spawner message creates has its id from the call on, not from its creation in the worker; ids and keys do not wrap at 2^64.
- Liveness and fairness: two hungry writers can hold part of the permits each, the shutdown loop may spin, and a blocking submit may wait for ever.
- Polling a future after it was ready: a mutex future panics in the source, and a semaphore future acquires a second permit. Acquiring through owned guards is left out as well, because they repeat the borrowed ones.
- ControlBuffer.TryPrepareMulti: payloads longer than CMSG_LEN and CMSG_SPACE can express in 32 bits are excluded, and panics of time arithmetic are error values.
- ControlRoundTrip.RoundTripExact: extended-error messages only have parsers, which always fail, so they are no part of the round trip; TLS record types that were received cannot be prepared.
- The values of libc constants, structure layouts and the CMSG macros are those of little-endian 64-bit Linux; the libc crate is not part of this model. The byte order the kernel uses for IPv4 packet info is not claimed.
- AddressRoundTrip.DisplayRoundTrip: the resolver itself is left out, so `AskResolver` stands for whatever it answers; characters outside ASCII count for their UTF-8 length only.
- Scatter.ScatterExact: how far a full buffer grows is left open, as some non-empty memory, since the bytes crate is not part of this model.
- Pool.RoundRobinExact: assumes that no other caller advances the counter between the tries of one call.
- The payload of a successful operation, the conversions of result codes per operation, and operations, sockets, files, timers, notifications and error tables around the core are left out: they are plumbing or finite tables.
- Event queues, signalfd, epoll and io_uring internals: only edges, a bounded ring and a nondeterministic kernel remain. A signal that asks to stop is a parameter of the poll of events.
