# Verified models of MyCoroutine, the echo codec, and two server protocols

This project models the parts of the repository whose correctness depends on interleavings, on
reused slots or on partial input, and proves what their callers rely on. `dafny verify dfyconfig.toml`
checks all of it.

Each component appears twice. One form is a class (`Schedule`, `MutexObject`, `RWLockSchedule`, `Timer`,
`Packet`, `CodecObject`, ...) whose methods update fields and arrays in place, with the loops the program has.
The other is a specification on values: what one call does between two yields, or one atomic step of one
thread. Every method is proved to compute exactly the step of its specification, and the properties are
proved of the specification for all runs: any number of coroutines or threads, any order of resumptions, spurious
wake-ups included, any short read or write.

| Files | What they model |
|---|---|
| `Kernel*.dfy`, `Schedule.dfy` | the slot pool, the batch pool, the finish list, one `CoMutex`, and `Schedule::Run`; `KernelEffects` says what each call does slot by slot, `KernelPasses` what each pass does visit by visit |
| `CoMutex.dfy`, `MutexProtocol.dfy` | one `CoMutex` among coroutines that do anything else |
| `CoRWLock.dfy`, `RWLockProtocol.dfy`, `RWLockObject.dfy` | one `CoRWLock` and the pass of `CoRWLockResume` |
| `CoSemaphore.dfy`, `Channel.dfy` | one `CoSemaphore` and its pass; a `Channel` built from two of them |
| `CallOnce.dfy` | `CoCallOnce` and `CoSingleFlight` and their passes |
| `Codec.dfy`, `Stream.dfy`, `CodecObject.dfy` | the wire format, the incremental decoder, `SendMsg` and `RecvMsg` |
| `BoundedQueue.dfy`, `ConnOwnership.dfy` | the shared queue and the hand-off of connections in EpollReactorThreadPoolHSHA2 |
| `Timer.dfy` | the timer with delayed cancellation and the event loop that drives it |

## How programs and schedules are modelled

A coroutine body is a finite tree of calls (`Kernel.Prog`); what is left of it stands for its stack, and
`call` says which library call it is suspended inside. `CoroutineResume` runs it to its next switch back.
`Kernel.Wf` is the discipline the library needs of its callers: no batch inside a batch, at least one child before
`BatchRun`, no yield and no blocking call between `BatchCreate` and `BatchRun`, and a mutex that is released by its
holder, not locked twice, and not held at the end of a coroutine. `StepSafe`, `ResumeSafe` and `AssertsHold` are the
library's own assertions; they are proved, never assumed.

Two further rules belong to single results and are stated where they are used. `Allowed` and `Within`: the master keeps
at most `n` top-level coroutines alive, the number it gave the constructor; capacity and the end of `Run` depend on it,
safety does not. `HeldJoin`: a call of `BatchRun` with the mutex held and with a child in the batch that wants it, that
is, that comes to `CoMutexLock` first as long as the mutex stays taken (`Wants`). Only whether `Run` returns depends on
it; `FreeAtJoin` is the rule, checked on the program text, that no path makes such a call.

The protocols leave the rest of the program open: between two events of the object they describe, a coroutine
may block elsewhere, and the master may resume anybody at any time. A run is a sequence of events each of which
is `Enabled`; the main lemmas speak about every such sequence. Fields marked as history (`trace`, `arrivals`, `line`,
`sent`, `fires`, `place`, ...) record what happened and are read by no decision.

## What the proofs found

- `CoRWLockResume` skips read-locked locks with the comment that only writers are suspended by then. That is not so: a
  reader that queued behind a writer can still be queued while another reader holds the lock
  (`RWLockProtocol.ReaderQueuedUnderReadLock`). A step makes the comment false exactly when a reader takes the free lock
  while another reader waits in the queue (`RWLockProtocol.CommentBreaksIff`). The end-of-pass facts hold for passes that
  start unlocked.
- A program may hold a mutex across `BatchRun`; all safety results cover it. `Run` then fails to return exactly when some
  `BatchRun` is a `HeldJoin` (`KernelReturns.RunReturnsIff`): from that call on the parent keeps the mutex, its child
  never gets it, and nothing any coroutine does changes that (`KernelReturns.DeadIff`). Once nobody else can move, a pass
  changes nothing at all (`KernelRun.StuckIsDead`, `KernelWitness.HeldJoinSpins`).
- With more than `n` top-level coroutines alive, `BatchAdd` aborts exactly when every slot is taken
  (`KernelTrace.EveryRun`, `KernelWitness.CrowdedAborts`); with at most `n` it never does (`KernelTrace.Capacity`).
- `DeCode` ends on a chunk exactly when the bytes delivered do not run past the end of the message; with bytes left over
  after FINISH its loop spins (`Codec.DeCodeHaltsIff`), which a reset codec reaches on pipelined input
  (`Codec.PipelinedInputSpins`). `RecvMsg` never delivers such a chunk to its fresh codec.
- A message comes back from its encoding exactly when header and body together fit 32 bits, because the buffer
  length is summed in 32 bits (`Stream.RoundTripIff`).
- A `Channel` of the constructor's default size 0 never completes a `Send`; a positive size is exactly what it takes
  (`ChannelProtocol.SendCanComplete`).
- A failed `epoll_wait` loses the timer `GetLastTimer` had handed out. The assertions of an empty `GetLastTimer` then fail;
  they hold exactly in the runs where no wait failed with a timer in hand (`TimerLoop.AssertionsIff`, `TimerLoop.FailedWaitLosesTimer`).

## Model

| member | source | states |
|---|---|---|
| KernelTrace.EveryRun | Coroutine/coroutine.cpp:66-122 | in every state of every run of a fresh scheduler, whatever is created and in whatever order coroutines are resumed: the next step trips an assertion exactly when it adds a child while every slot is taken, the next resumption of a queued parent or mutex waiter trips none, and fork/join order holds so far |
| KernelTrace.Capacity | Coroutine/coroutine.cpp:32-36 | in every run that keeps at most n top-level coroutines alive no step trips any assertion, BatchCreate always finds a batch, and a creation within the allowance always finds a slot |
| KernelReturns.RunReturnsIff | Coroutine/coroutine.cpp:66-91 | from any point between two resumptions of any run within the allowance, Run returns exactly when no step of that run, or of Run from there, is a BatchRun called with the mutex held and with a child in the batch that wants it; the steps of Run are themselves a run |
| KernelReturns.RunCompletes | Coroutine/coroutine.cpp:66-91 | if Run returns, everything is idle and every fork joined; if not, it comes to a state no pass changes, with the mutex held by a parent in BatchRun whose child wants it; programs that never make such a call on any path let it return |
| KernelReturns.DeadIff | Coroutine/batch.cpp:21-31 | in every run, whoever drives it, a parent in BatchRun holds the mutex its child wants exactly from the first such BatchRun on, and for ever |
| KernelDeadlock.DeadBornIff | Coroutine/batch.cpp:21-26 | from any invariant state, one step brings about such a wait exactly when it is such a BatchRun |
| KernelDeadlock.DeadStays | Coroutine/sync/mutex.cpp:13-54 | no step of any coroutine ends such a wait |
| KernelReturns.RunPath | Coroutine/coroutine.cpp:66-91 | the passes of Run are a run of the same atomic actions, so what holds in every run holds all through Run |
| KernelPasses.RunSchedule | Coroutine/coroutine.cpp:66-91 | Run makes one pass after the other, each of which changes something, until nobody is alive or a pass would change nothing |
| KernelPasses.PassSchedule | Coroutine/coroutine.cpp:68-84 | a pass visits every slot once in order and runs whoever can be resumed to its next switch back, then every queued parent in the order of the list, those queued meanwhile included, then the longest waiter of a free mutex |
| KernelReturns.PoolSchedule | Coroutine/coroutine.cpp:69-82 | from any slot on, the loop over the pool resumes each slot that can be resumed exactly once, in order, and no other |
| KernelPasses.MutexPassWakes | Coroutine/sync/mutex.cpp:56-65 | with the lock free and somebody waiting, the longest waiter leaves the queue, its first step takes the lock and goes on behind its CoMutexLock, and total work drops; in every other case nothing changes |
| KernelPasses.WakeEffect | Coroutine/coroutine.cpp:106-116 | a resumption switches to the coroutine named, or to the next queued parent, and touches no other slot, batch or queue |
| KernelTrace.ForkJoin | Coroutine/batch.cpp:21-41 | as far as Run gets, every child ends once, after being added, and a parent is queued and joined only after all its children ended; when Run returns every child has ended and every queued parent was joined |
| KernelTrace.StepTrace | Coroutine/coroutine.cpp:18-27 | each step that meets its assertions keeps the history right: a child ends once, its parent is queued and joined only after all its children, and owes a join exactly while it is queued or returning from BatchRun |
| KernelTrace.LastChild | Coroutine/coroutine.cpp:20-27 | when the end of a coroutine queues its parent, no child of that parent is outstanding any more |
| KernelTrace.NotYetQueued | Coroutine/batch.cpp:33-41 | while a child is alive its parent is not in the finish list |
| KernelTrace.ParentTrace | Coroutine/batch.cpp:62-71 | the next parent of the finish list meets the assertion of CoroutineResume and its resumption keeps both invariants |
| KernelWitness.CrowdedAborts | Coroutine/mycoroutine.h:55-59 | a run with one top-level coroutine too many, in which the next BatchAdd finds no idle slot and aborts |
| KernelTrace.MasterCreate | Coroutine/mycoroutine.h:17-32 | CoroutineCreate from the master keeps the invariants whatever it answers, and within the allowance it succeeds |
| KernelTrace.CreateFailsIff | Coroutine/mycoroutine.h:19-27 | for any state, CoroutineCreate answers kInvalidCid exactly when no slot is idle, and then changes nothing |
| KernelTrace.RunTrace | Coroutine/coroutine.cpp:66-91 | the history is right at the end of Run |
| KernelSteps.StepInv | Coroutine/coroutine.cpp:7-30 | the next step of a disciplined coroutine trips an assertion exactly when it adds a child while every slot is taken, never within the allowance, and otherwise keeps the scheduler invariant |
| KernelSteps.BatchCreateInv | Coroutine/batch.cpp:7-19 | BatchCreate keeps the invariant; the caller has its own open batch exactly when one was idle, which within the allowance is always so |
| KernelSteps.BatchAddInv | Coroutine/mycoroutine.h:50-63 | BatchAdd meets its assertions exactly when the batch is full or a slot is idle, and then keeps the invariant |
| KernelSteps.BatchRunInv | Coroutine/batch.cpp:21-26 | BatchRun meets its assertions, keeps the invariant and leaves the caller suspended as a waiting parent, with or without the mutex |
| KernelSteps.JoinInv | Coroutine/batch.cpp:26-31 | BatchRun returns only with every child of its batch finished, frees the batch and the parent's link, and keeps the invariant |
| KernelSteps.EndInv | Coroutine/coroutine.cpp:12-29 | the end of a coroutine meets the assertions of CoroutineRun and IsBatchDone and keeps the invariant |
| KernelEffects.BatchAddEffect | Coroutine/mycoroutine.h:50-63 | BatchAdd with room: exactly one coroutine comes alive, in the lowest idle slot, ready to run the task passed in, related to the caller's batch and listed there as unfinished, and the caller goes on; a full batch changes no other slot and no batch |
| KernelEffects.CreateEffect | Coroutine/mycoroutine.h:17-32 | CoroutineCreate puts the task passed in into the lowest idle slot, ready, without a batch, and changes no other slot |
| KernelEffects.BatchCreateEffect | Coroutine/batch.cpp:7-19 | BatchCreate opens the lowest idle batch, empty, with the caller as parent; without one it changes nothing but the caller's branch |
| KernelEffects.BatchRunEffect | Coroutine/batch.cpp:21-26 | BatchRun marks only the caller's batch as running and suspends only the caller, inside the call |
| KernelEffects.JoinEffect | Coroutine/batch.cpp:26-31 | BatchRun returns to the caller with all its children finished, its batch idle and every other batch and slot as it was |
| KernelEffects.EndEffect | Coroutine/coroutine.cpp:12-29 | the end of a coroutine frees its slot and marks it finished in the batch that lists it, and touches nothing else |
| KernelEffects.EndQueues | Coroutine/coroutine.cpp:20-27 | a child that ends puts its parent at the end of the finish list exactly if every other child of the batch has finished |
| KernelEffects.HistoryEffect | Coroutine/coroutine.cpp:12-29 | the history that fork and join are stated on records every end, every queueing of a parent and every return from BatchRun as it happens, and nothing else |
| KernelEffects.LockEffect | Coroutine/sync/mutex.cpp:13-31 | CoMutexLock on a free lock takes it and goes on; on a taken one it leaves the caller suspended in the call with one place in the queue, the last if it is new |
| KernelEffects.TryLockEffect | Coroutine/sync/mutex.cpp:33-41 | CoMutexTryLock takes the lock exactly if it is free, and neither suspends nor queues |
| KernelEffects.UnLockEffect | Coroutine/sync/mutex.cpp:43-54 | CoMutexUnLock frees the lock, takes the caller's place out of the queue and keeps every other place |
| KernelEffects.YieldEffect | Coroutine/coroutine.cpp:93-104 | a yield suspends the caller behind it and changes nothing else |
| KernelSteps.ResumeParentInv | Coroutine/coroutine.cpp:106-116 | a queued parent is suspended in BatchRun with all its children finished, so its resumption meets every assertion |
| KernelInv.ResumeInv | Coroutine/coroutine.cpp:106-116 | resuming any ready or suspended coroutine that is not a waiting parent keeps the invariant |
| KernelInv.YieldInv | Coroutine/coroutine.cpp:93-104 | a yield keeps the invariant and gives control to the master |
| KernelInv.LockInv | Coroutine/sync/mutex.cpp:13-31 | a turn of CoMutexLock meets its assertions and changes nothing but the caller and the mutex |
| KernelInv.UnLockInv | Coroutine/sync/mutex.cpp:43-54 | the holder's unlock meets its assertions and leaves no stale queue entry |
| KernelInv.TryLockInv | Coroutine/sync/mutex.cpp:33-41 | TryLock keeps the queue and scheduler invariants whether or not it gets the lock |
| KernelInv.IdleSlotSpec | Coroutine/mycoroutine.h:19-27 | the scan finds the lowest idle slot, or none exactly when none is idle |
| KernelInv.IdleBatchSpec | Coroutine/batch.cpp:10-18 | the scan finds the lowest idle batch, or none exactly when none is idle |
| KernelCapacity.ProductBound | Coroutine/coroutine.cpp:34-36 | with m >= 1 the constructor's bound gives at most 5120 top-level coroutines |
| KernelCapacity.BatchAvailable | Coroutine/batch.cpp:10-18 | within the allowance a running coroutine without a batch finds an idle one |
| KernelCapacity.SlotAvailable | Coroutine/mycoroutine.h:55-59 | within the allowance the CoroutineCreate inside BatchAdd finds an idle slot |
| KernelCapacity.TopSlotAvailable | Coroutine/mycoroutine.h:19-27 | with fewer than n top-level coroutines alive CoroutineCreate finds an idle slot |
| KernelCapacity.BusyBound | Coroutine/coroutine.cpp:32-36 | there are at most as many open batches as live top-level coroutines |
| KernelCapacity.KidsBound | Coroutine/mycoroutine.h:55-61 | any set of open batches has at most m live children each |
| KernelRun.PassProgress | Coroutine/coroutine.cpp:68-89 | a pass of Run over somebody alive changes nothing exactly in a stuck state and otherwise strictly lowers the work left; programs that keep the rule about BatchRun never get stuck |
| KernelRun.ResumeProgress | Coroutine/coroutine.cpp:106-122 | a resumption lowers the work left, or changes nothing at all because the lock is taken |
| KernelRun.ResumeFutile | Coroutine/sync/mutex.cpp:14-30 | a spurious wake-up of a coroutine that waits for a taken mutex leaves the whole scheduler as it was |
| KernelRun.SomebodyMoves | Coroutine/coroutine.cpp:68-83 | with somebody alive, a parent is queued or a coroutine can be resumed |
| KernelRun.ParentHasReason | Coroutine/batch.cpp:21-41 | a parent waiting in BatchRun is in the finish list or has a child of its own batch that can be resumed |
| KernelRun.HolderRuns | Coroutine/sync/mutex.cpp:16-20 | the holder of the mutex is not waiting for it, and can be resumed exactly when it is not waiting in BatchRun |
| KernelRun.StuckOnHolder | Coroutine/coroutine.cpp:68-84 | a stuck state has the mutex held by a coroutine that waits in BatchRun |
| KernelRun.StuckIsDead | Coroutine/coroutine.cpp:68-84 | in a stuck state a child in the batch of that coroutine wants the mutex |
| KernelRun.DeadNeverReturns | Coroutine/coroutine.cpp:66-91 | from a state in which a parent in BatchRun holds the mutex its child wants, Run does not return, whatever else is going on |
| KernelRun.ReturnsUnlessDead | Coroutine/coroutine.cpp:66-91 | Run returns exactly when its passes do not come to such a state, and always for programs that keep the rule |
| KernelDeadlock.StepFree | Coroutine/batch.cpp:21-26 | a program that calls BatchRun with the mutex and a child that wants it on no path keeps that rule in every step, and no such wait arises |
| KernelWitness.HeldJoinSpins | Coroutine/coroutine.cpp:66-91 | a run of one accepted program that holds the mutex across BatchRun, to a state that no pass changes, so Run does not return |
| KernelRun.StepWork | Coroutine/coroutine.cpp:7-30 | every step but a futile lock retry lowers the total work left, a child's program paid for by its BatchAdd |
| KernelRun.PickInv | Coroutine/sync/mutex.cpp:56-65 | the coroutine CoMutexResume takes off the queue is suspended in CoMutexLock and takes the lock in its next step |
| KernelRun.RunEndsIdle | Coroutine/coroutine.cpp:66-91 | Run ends with every slot and batch idle, nobody queued, and the mutex free with an empty queue, exactly when it does not get stuck |
| KernelRun.InitInv | Coroutine/coroutine.cpp:32-45 | the constructor establishes the invariant |
| Scheduler.Schedule.constructor | Coroutine/coroutine.cpp:32-45 | a new object is exactly the initial state, with fresh pools |
| Scheduler.Schedule.CoroutineCreate | Coroutine/mycoroutine.h:17-32 | the scan and claim compute CreateStep, cid included |
| Scheduler.Schedule.Spawn | Coroutine/mycoroutine.h:17-32 | a top-level creation keeps both invariants and fails exactly when every slot is taken; otherwise the lowest idle slot is ready to run the program passed in and no other slot changes; within the allowance it succeeds |
| Scheduler.Schedule.CoroutineYield | Coroutine/coroutine.cpp:93-100 | the running coroutine is suspended and the master in control, nothing else changed |
| Scheduler.Schedule.CoMutexLock | Coroutine/sync/mutex.cpp:13-31 | one turn of the loop computes LockStep on pools and mutex together |
| Scheduler.Schedule.CoMutexTryLock | Coroutine/sync/mutex.cpp:33-41 | computes TryLockStep |
| Scheduler.Schedule.CoMutexUnLock | Coroutine/sync/mutex.cpp:43-54 | computes UnLockStep |
| Scheduler.Schedule.BatchCreate | Coroutine/batch.cpp:7-19 | the loop claims the lowest idle batch for the caller, or answers kInvalidBid |
| Scheduler.Schedule.BatchAdd | Coroutine/mycoroutine.h:50-63 | true exactly when the batch has fewer than m children, and then the one new coroutine runs the task passed in and is an unfinished child of the batch; otherwise no other slot and no batch changes |
| Scheduler.Schedule.BatchRun | Coroutine/batch.cpp:21-26 | computes BatchRunStep up to the yield |
| Scheduler.Schedule.BatchRunReturn | Coroutine/batch.cpp:27-31 | clears the batch and the parent's link |
| Scheduler.Schedule.IsBatchDone | Coroutine/batch.cpp:33-41 | true exactly when every child has finished |
| Scheduler.Schedule.CoroutineRunReturn | Coroutine/coroutine.cpp:12-29 | computes FinishStep: slot idle, child marked, parent queued when it was the last |
| Scheduler.Schedule.CoroutineStep | Coroutine/coroutine.cpp:7-30 | any call of the running coroutine that does not want a child without an idle slot meets its assertions, computes Step and keeps both invariants |
| Scheduler.Schedule.Slice | Coroutine/coroutine.cpp:114-122 | the stretch to the next switch back ends and computes RunSlice |
| Scheduler.Schedule.CoroutineResume | Coroutine/coroutine.cpp:106-122 | computes ResumeSlice and returns with the master in control |
| Scheduler.Schedule.CoroutineResume4BatchFinish | Coroutine/batch.cpp:62-71 | resumes every queued parent, those queued meanwhile included, and clears the list |
| Scheduler.Schedule.CoMutexResume | Coroutine/sync/mutex.cpp:56-65 | with the lock free and somebody waiting, the longest waiter has left the queue, taken the lock and run on to its next switch back, with less work left; otherwise the state is unchanged |
| Scheduler.Schedule.VisitSlot | Coroutine/coroutine.cpp:70-81 | the body of the loop resumes its slot exactly if it is ready or suspended and no waiting parent |
| Scheduler.Schedule.PoolLoop | Coroutine/coroutine.cpp:69-82 | the for loop resumes exactly the slots PoolPass resumes, in order |
| Scheduler.Schedule.RunUntilIdle | Coroutine/coroutine.cpp:66-91 | the loop of Run computes RunAll and, in every case in which its passes come to an end, terminates with all idle, the mutex free and the finish list empty |
| CoMutexObject.MutexObject.constructor | Coroutine/sync/mutex.cpp:4-9 | a new mutex is free |
| CoMutexObject.MutexObject.Attempt | Coroutine/sync/mutex.cpp:14-27 | computes LockAttempt and says whether the lock was taken |
| CoMutexObject.MutexObject.Try | Coroutine/sync/mutex.cpp:33-41 | computes TryLock |
| CoMutexObject.MutexObject.Release | Coroutine/sync/mutex.cpp:43-54 | the search and erase compute UnLock |
| CoMutexObject.MutexObject.PopWaiter | Coroutine/sync/mutex.cpp:59-62 | takes the head of the queue exactly when the lock is free and somebody waits |
| MutexProtocol.Reachable | Coroutine/sync/mutex.cpp:13-65 | every reachable state of one mutex among arbitrary coroutines satisfies the queue invariant |
| MutexProtocol.QueueExact | Coroutine/sync/mutex.cpp:23-27 | whenever the master is in control the queue has no duplicate and, the holder's leftover place aside, is the list of blocked coroutines by first arrival |
| MutexProtocol.VisitServesLongestBlocked | Coroutine/sync/mutex.cpp:56-65 | the coroutine CoMutexResume picks is the longest blocked, and its next step takes the lock |
| MutexProtocol.SpuriousWakeKeepsPlace | Coroutine/sync/mutex.cpp:14-30 | a blocked coroutine resumed while the lock is taken blocks again with the state unchanged |
| MutexProtocol.MutualExclusion | Coroutine/sync/mutex.cpp:13-48 | in every run the coroutines that got the mutex and have not released it are nobody, or exactly the one hold_cid names |
| MutexProtocol.LockEffect | Coroutine/sync/mutex.cpp:13-31 | a turn of CoMutexLock takes a free lock and goes on, or blocks the caller with one place in the queue; nobody else's call is affected |
| MutexProtocol.TryLockEffect | Coroutine/sync/mutex.cpp:33-41 | CoMutexTryLock makes the caller an owner exactly if the lock is free, and never blocks or queues it |
| MutexProtocol.UnLockEffect | Coroutine/sync/mutex.cpp:43-54 | CoMutexUnLock frees the lock and takes the caller's place, and no other, out of the queue |
| RWLockProtocol.EveryRun | Coroutine/sync/rwlock.cpp:13-84 | in every state of every run the lock is in one of its three documented states, and no assertion of the four calls fails in the next step |
| RWLockProtocol.PopAcquires | Coroutine/sync/rwlock.cpp:93-109 | the entry a pass pops is blocked in the matching call and holds the lock after its next step |
| RWLockProtocol.PassFollowsLine | Coroutine/sync/rwlock.cpp:93-109 | what a pass has woken is a prefix of the queue it found and saw grow, so no reader is woken past an earlier writer |
| RWLockProtocol.PassTerminates | Coroutine/sync/rwlock.cpp:86-111 | whatever the woken coroutines do, a pass wakes at most as many as were queued when it started, and it can stop only write-locked, with an empty queue, or read-locked with a writer in front |
| RWLockProtocol.PopsBounded | Coroutine/sync/rwlock.cpp:93-109 | the pops still possible are bounded by the whole queue while nobody else holds the lock and by the queued readers after |
| RWLockProtocol.RankStep | Coroutine/sync/rwlock.cpp:93-109 | no step inside a pass raises that bound and every pop lowers it |
| RWLockProtocol.TurnInv | Coroutine/sync/rwlock.cpp:13-34 | a first or repeated turn of either lock loop meets its assertions and keeps the invariant |
| RWLockProtocol.WrUnLockInv | Coroutine/sync/rwlock.cpp:36-45 | the writer's unlock meets its assertions and keeps the invariant |
| RWLockProtocol.RdUnLockInv | Coroutine/sync/rwlock.cpp:72-84 | a reader's unlock meets its assertions and keeps the invariant, last reader or not |
| RWLockProtocol.WrUnLockEffect | Coroutine/sync/rwlock.cpp:36-45 | after the writer's unlock the lock is free, nobody holds it, the writer has no entry left and every other entry keeps its place, whatever entry the writer had left over |
| RWLockProtocol.RdUnLockEffect | Coroutine/sync/rwlock.cpp:72-84 | after a reader's unlock exactly the other readers hold the lock, which is free if there are none; its entry is gone and every other keeps its place |
| RWLockProtocol.LockEffect | Coroutine/sync/rwlock.cpp:13-70 | a turn of either lock loop makes the caller a holder exactly if the lock is free or both it and the lock are reading; otherwise the caller blocks with one entry and the holders stay |
| RWLockProtocol.ReaderQueuedUnderReadLock | Coroutine/sync/rwlock.cpp:89-92 | a run that ends read-locked with another reader still queued, against the comment there |
| RWLockProtocol.CommentBreaksIff | Coroutine/sync/rwlock.cpp:89-92 | from any state, a step makes the comment false exactly when a reader takes the free lock while another reader waits in the queue |
| RWLockProtocol.CommentHoldsIff | Coroutine/sync/rwlock.cpp:89-92 | the comment is true all along a run exactly when no step of the run does that |
| RWLockObject.RWLockSchedule.constructor | Coroutine/sync/rwlock.cpp:4-9 | a new lock is unlocked, with nobody queued |
| RWLockObject.RWLockSchedule.WrLockTurn | Coroutine/sync/rwlock.cpp:13-34 | one turn of CoRWLockWrLock computes Turn |
| RWLockObject.RWLockSchedule.RdLockTurn | Coroutine/sync/rwlock.cpp:47-70 | one turn of CoRWLockRdLock computes Turn |
| RWLockObject.RWLockSchedule.CoRWLockWrUnLock | Coroutine/sync/rwlock.cpp:36-45 | the lock is free, without writer or holder, and the caller's leftover entry taken out of the queue, every other entry in its place |
| RWLockObject.RWLockSchedule.CoRWLockRdUnLock | Coroutine/sync/rwlock.cpp:72-84 | computes RdUnLock; the last reader unlocks |
| RWLockObject.RWLockSchedule.PassLoop | Coroutine/sync/rwlock.cpp:93-109 | the inner loop terminates, is a legal run of the protocol, and stops where nothing can be popped |
| RWLockObject.RWLockSchedule.CoRWLockResume | Coroutine/sync/rwlock.cpp:86-111 | terminates for every behaviour of the woken coroutines with at most as many wake-ups as waiters; skips taken locks; a pass from unlocked ends in one of the three final situations |
| SemaphoreProtocol.Conservation | Coroutine/sync/semaphore.cpp:14-26 | in every run value = initial + posts - completed waits >= 0, and the suspend set is exactly the blocked coroutines |
| SemaphoreProtocol.WakeConsumes | Coroutine/sync/semaphore.cpp:35-41 | each coroutine a pass wakes is blocked in Wait and consumes one unit in its next step |
| SemaphoreProtocol.PassEndsExact | Coroutine/sync/semaphore.cpp:28-44 | when a pass leaves the semaphore its value is 0 or nobody waits |
| SemaphoreProtocol.WaitEffect | Coroutine/sync/semaphore.cpp:19-26 | Wait takes one unit and goes on if there is one, and otherwise blocks the caller among the waiters |
| SemaphoreProtocol.PostEffect | Coroutine/sync/semaphore.cpp:14-17 | Post adds one unit and wakes nobody itself |
| CoSemaphoreObject.SemaphoreObject.constructor | Coroutine/sync/semaphore.cpp:6-10 | a new semaphore has the given value and no waiter |
| CoSemaphoreObject.SemaphoreObject.CoSemaphorePost | Coroutine/sync/semaphore.cpp:14-17 | adds one unit and touches nothing else |
| CoSemaphoreObject.SemaphoreObject.Turn | Coroutine/sync/semaphore.cpp:19-26 | one turn of the loop computes WaitTurn and says whether the call returns |
| SemaphoreSchedule.SemaphoreScheduler.CoSemaphoreResume | Coroutine/sync/semaphore.cpp:28-44 | the loop over the snapshot is a legal run of the protocol for every behaviour of the woken, ends with value 0 or nobody waiting, and wakes somebody when it can |
| ChannelProtocol.BoundedFifo | Coroutine/sync/channel.h:19-35 | in every run sent = received + buffer, the buffer is within its size, the two semaphores count it, and the next step pops no empty list |
| ChannelProtocol.PassEndsExact | Coroutine/sync/semaphore.cpp:28-44 | a pass leaves a semaphore of the channel at 0 or with nobody blocked on that side |
| ChannelProtocol.NeverBothStuck | Coroutine/sync/channel.h:19-35 | with a positive size, when a sender and a receiver are both blocked, the next pass over one of the semaphores can wake one of them |
| ChannelProtocol.SendCanComplete | Coroutine/sync/channel.h:11-14 | a Send completes in some run exactly when the buffer size is positive |
| ChannelProtocol.SendEffect | Coroutine/sync/channel.h:19-25 | Send puts its value at the end of the list as soon as the list is below its size, and blocks until then without changing it |
| ChannelProtocol.ReceiveEffect | Coroutine/sync/channel.h:26-35 | Receive takes the value at the head of the list as soon as there is one, and blocks until then without changing it |
| ChannelObject.Channel.constructor | Coroutine/sync/channel.h:11-14 | a new channel is empty, with bufferSize units in idle and none in fill |
| ChannelObject.Channel.Send | Coroutine/sync/channel.h:19-25 | computes Turn of Send and keeps the invariant |
| ChannelObject.Channel.Receive | Coroutine/sync/channel.h:26-35 | computes Turn of Receive; when it returns, with the oldest value, the list was not empty |
| CallOnceProtocol.EveryRun | Coroutine/mycoroutine.h:98-135 | in no run does an assertion of a pass fail, and no Do has returned with a flight that had not finished |
| CallOnceProtocol.CallOnceOnce | Coroutine/mycoroutine.h:98-112 | the function of a CallOnce starts at most once and no Do has returned before it finished |
| CallOnceProtocol.FlightsDoNotOverlap | Coroutine/sync/singleflight.cpp:10-31 | at most one flight is in progress, and a new one starts only when everybody who joined the last has returned |
| CallOnceProtocol.JoinersShareFlight | Coroutine/mycoroutine.h:118-135 | every return from Do is with the flight that finished last, and only the runner's return ends one |
| CallOnceProtocol.DoEffect | Coroutine/mycoroutine.h:99-112 | Do makes the caller run the function if nobody has, joins the flight under way suspended, and returns at once after its end |
| CallOnceProtocol.RetryEffect | Coroutine/mycoroutine.h:107-111 | a coroutine suspended in Do returns exactly if the flight it joined has finished when it is resumed, and otherwise nothing changes |
| CallOnceProtocol.DoneEffect | Coroutine/mycoroutine.h:100-105 | the end of the function finishes the flight and returns the runner with it, the others still suspended |
| CallOnceProtocol.ResetEffect | Coroutine/sync/singleflight.cpp:10-31 | after its pass a SingleFlight starts afresh with nobody suspended, a CallOnce stays finished |
| CallOnceObject.CallOnceSchedule.constructor | Coroutine/sync/callonce.cpp:4-8 | a new object is in its initial state |
| CallOnceObject.CallOnceSchedule.Loop | Coroutine/mycoroutine.h:107-111 | one turn of the while loop of Do computes Turn |
| CallOnceObject.CallOnceSchedule.Act | Coroutine/mycoroutine.h:99-112 | every call of the running coroutine computes Next |
| CallOnceObject.CallOnceSchedule.CoCallOnceResume | Coroutine/sync/callonce.cpp:12-27 | a finished object ends with nobody suspended after one wake-up each, otherwise nothing changes |
| CallOnceObject.CallOnceSchedule.CoSingleFlightResume | Coroutine/sync/singleflight.cpp:10-31 | a finished flight ends in the initial state with nobody suspended after one wake-up each, otherwise nothing changes |
| Codec.BigEndianRoundTrip | common/codec.hpp:34-39 | the head read back is the length written |
| Codec.NetworkOrder | common/codec.hpp:36-36 | the four bytes of the head are the length in base 256, most significant first, and no other four are |
| Codec.FeedInStep | common/codec.hpp:40-55 | a chunk that fits the buffer and the message leaves the decoder in the state its received bytes alone determine, with the loop ended and the buffer bounds kept |
| Codec.RoomUntilDone | common/codec.hpp:56-62 | until the last byte there is room and no message; after it the message is the bytes behind the head |
| Codec.ResetInStep | common/codec.hpp:24-30 | after Reset a codec is ready for another message and keeps its buffer, whatever happened to it before |
| Codec.ReusedRoundTrip | common/codec.hpp:24-62 | a codec that finished a message in any chunks, gave it out and was reset decodes the next message, in any chunks that fit, to exactly that message |
| Codec.ManyMessages | common/codec.hpp:24-62 | one codec, reset in between, decodes any list of messages however each is cut into chunks |
| Codec.ChunkingIrrelevant | common/codec.hpp:40-62 | two ways to cut the same bytes into chunks end with the same status, cursors and message, fresh codec or reused |
| Codec.DeCodeHaltsIff | common/codec.hpp:44-54 | DeCode halts on a chunk exactly when the bytes received do not run past the end of the message, finished codec or not |
| Codec.PipelinedInputSpins | common/codec.hpp:40-55 | a reachable input on which DeCode does not return: a reused codec is handed an empty message and one byte more |
| Codec.FinishedForever | common/codec.hpp:44-54 | after FINISH no number of turns gets through left-over bytes |
| Codec.TakenOnce | common/codec.hpp:56-62 | a message is handed over once: a second GetMessage finds none, and the first changes nothing else |
| Stream.RecvFromSpec | common/utils.hpp:39-58 | whatever the reads do, a message RecvMsg returns is the bytes after the head and the rest of the stream is untouched |
| Stream.RecvFromLive | common/utils.hpp:39-58 | on a stream that holds a whole message, enough reads that give something before one fails receive it, with any number of interrupted reads between; when RecvMsg does not receive it, it returns an error exactly if a read failed or the peer closed |
| Stream.RecvEncoded | common/utils.hpp:39-58 | what is received from a stream that starts with an encoded message is that message, and no byte of the next is consumed |
| Stream.RoundTripIff | common/codec.hpp:65-78 | an encoded message can be received back exactly when its length plus 4 is below 2^32 |
| Stream.SendFromPrefix | common/utils.hpp:21-36 | whatever the writes do, what is on the wire is a prefix of the packet, and all of it on success |
| Stream.SendFromIff | common/utils.hpp:21-36 | from any position SendMsg succeeds exactly if the writes take the rest before one fails, and returns an error exactly if one fails before that, however short and interrupted the writes are |
| Stream.SendLive | common/utils.hpp:21-36 | when the writes take enough before one fails, the result is success and the wire holds the whole encoding |
| Stream.SendAllBytes | common/utils.hpp:21-36 | successive SendMsg calls write the concatenation of the encodings, or a prefix that ends inside the first that failed |
| Stream.SendAllIff | common/utils.hpp:21-36 | successive SendMsg calls all succeed exactly if the writes of each take its encoding before one fails |
| Stream.RecvAllStream | common/utils.hpp:39-58 | successive RecvMsg calls return the first messages of the stream in order and leave exactly the others |
| Stream.RecvAllPrefix | common/utils.hpp:39-58 | from any part of the stream that has arrived, RecvMsg calls return the first messages sent, in order |
| Stream.RecvAllLive | common/utils.hpp:39-58 | with enough reads they return all messages |
| Stream.EndToEnd | common/utils.hpp:21-58 | whatever the writes and the reads do, failures included, the messages received are the first of those sent, in order; when the writes of every message take its encoding and its reads give enough, short and interrupted as they may be, all of them with nothing left |
| CodecObject.Packet.Alloc | common/packet.hpp:15-21 | a fresh buffer of the given length with both cursors at 0 |
| CodecObject.Packet.ReAlloc | common/packet.hpp:26-30 | never shrinks, and keeps content and cursors |
| CodecObject.EnCode | common/codec.hpp:34-39 | the packet holds exactly the encoding |
| CodecObject.CodecObject.constructor | common/codec.hpp:20-20 | a new codec is the fresh decoder |
| CodecObject.CodecObject.ResetCodec | common/codec.hpp:24-30 | computes Reset and keeps the buffer |
| CodecObject.CodecObject.TakeMessage | common/codec.hpp:56-62 | hands the message over once; after it there is none |
| CodecObject.CodecObject.DecodeHeadStep | common/codec.hpp:70-76 | computes DecodeHead on the real buffer |
| CodecObject.CodecObject.DecodeBodyStep | common/codec.hpp:84-90 | computes DecodeBody on the real buffer |
| CodecObject.CodecObject.DecodeTurn | common/codec.hpp:45-53 | one turn of the loop computes LoopBody |
| CodecObject.CodecObject.DeCodeChunk | common/codec.hpp:40-55 | DeCode(len) computes the decoder extended by the chunk, wherever its loop halts |
| CodecObject.SendMsg | common/utils.hpp:21-36 | computes Send; what it wrote is a prefix of the encoding, all of it on success, which is exactly when the writes take that much before one fails; an error means one failed before that |
| CodecObject.RecvMsg | common/utils.hpp:39-58 | computes Recv for every pattern of reads, and its codec always halts |
| BoundedQueue.Conservation | ConcurrencyModel/EpollReactorThreadPoolHSHA2/epollreactorthreadpoolhsha2.cpp:29-52 | in every interleaving the semaphores and the threads between theirs add up to the size, the queue is within it, items leave in the order they came and once, and front() finds an item |
| BoundedQueue.Delivered | ConcurrencyModel/EpollReactorThreadPoolHSHA2/epollreactorthreadpoolhsha2.cpp:29-52 | in every interleaving, what a thread was called to push is what it put into the list and is still about to put, and what it took from the list is what its calls returned and it still carries; with the list first in first out, every item pushed is returned once by the thread that popped it |
| BoundedQueue.PopTakesHead | ConcurrencyModel/EpollReactorThreadPoolHSHA2/epollreactorthreadpoolhsha2.cpp:46-47 | what a thread takes is the head of the list, which it keeps until its call returns it |
| BoundedQueue.PushAlone | ConcurrencyModel/EpollReactorThreadPoolHSHA2/epollreactorthreadpoolhsha2.cpp:29-38 | pushToQueue of a thread that meets room and no other thread appends its item and gives everything back but one unit |
| BoundedQueue.PopAlone | ConcurrencyModel/EpollReactorThreadPoolHSHA2/epollreactorthreadpoolhsha2.cpp:40-52 | getQueueData of a thread that meets an item and no other thread takes the head and gives everything back but one unit |
| BoundedQueue.MutualExclusion | ConcurrencyModel/EpollReactorThreadPoolHSHA2/epollreactorthreadpoolhsha2.cpp:32-35 | two threads are never both inside the lock |
| BoundedQueue.NeverAllStuck | ConcurrencyModel/EpollReactorThreadPoolHSHA2/epollreactorthreadpoolhsha2.cpp:29-52 | with a positive size, while somebody pushes and somebody pops, some thread can take a step |
| BoundedQueueObject.SharedQueue.constructor | ConcurrencyModel/EpollReactorThreadPoolHSHA2/epollreactorthreadpoolhsha2.cpp:170-172 | the initial semaphores and empty queue satisfy the invariant |
| BoundedQueueObject.SharedQueue.PushStep | ConcurrencyModel/EpollReactorThreadPoolHSHA2/epollreactorthreadpoolhsha2.cpp:29-38 | each atomic step of pushToQueue computes Next and keeps the invariant; the argument is appended to the list once |
| BoundedQueueObject.SharedQueue.PopStep | ConcurrencyModel/EpollReactorThreadPoolHSHA2/epollreactorthreadpoolhsha2.cpp:40-52 | each atomic step of getQueueData computes Next and keeps the invariant; the item removed is the head of the list, and the call returns that item |
| ConnOwnership.SingleOwner | ConcurrencyModel/EpollReactorThreadPoolHSHA2/epollreactorthreadpoolhsha2.cpp:54-135 | in every run each live connection is in exactly one of armed for read, armed for write, with one io thread, queued once, or with one worker |
| ConnOwnership.TouchesLive | ConcurrencyModel/EpollReactorThreadPoolHSHA2/epollreactorthreadpoolhsha2.cpp:100-135 | no step of any run touches a connection that was deleted, or one that any other thread holds, finds in the queue, or can be handed by epoll |
| ConnOwnership.IoStepInv | ConcurrencyModel/EpollReactorThreadPoolHSHA2/epollreactorthreadpoolhsha2.cpp:110-134 | each way an io thread handles an event moves its connection to one next place |
| ConnOwnership.WorkerStepInv | ConcurrencyModel/EpollReactorThreadPoolHSHA2/epollreactorthreadpoolhsha2.cpp:58-75 | each way a worker lets go of its connection moves it to one next place |
| ConnOwnership.DeliveredIdle | common/epollctl.hpp:42-55 | what epoll delivers to an io thread was armed and in nobody's hands |
| ConnOwnership.StepMoves | ConcurrencyModel/EpollReactorThreadPoolHSHA2/epollreactorthreadpoolhsha2.cpp:58-134 | each step brings its connection to the place its outcome calls for, and no other connection anywhere: half a request waits for the rest, a whole one is queued, a whole answer makes it readable again, the rest of an answer waits for writability, an error deletes it |
| ConnOwnership.HomeStays | ConcurrencyModel/EpollReactorThreadPoolHSHA2/epollreactorthreadpoolhsha2.cpp:110-115 | a connection stays with the epoll instance of the io thread that accepted it |
| ConnOwnership.QueueOrder | ConcurrencyModel/EpollReactorThreadPoolHSHA2/epollreactorthreadpoolhsha2.cpp:29-52 | connections go to the workers in the order the io threads queued them |
| TimerLoop.Conservation | EventDriven/timer.hpp:24-73 | in every run each registered timer is exactly one of pending, in hand, fired, discarded or lost; it fires at most once, not before its deadline, and not if cancelled |
| TimerLoop.NeverAfterCancel | EventDriven/timer.hpp:35-38 | a timer cancelled before it fired never fires, however the run goes on |
| TimerLoop.CancelledIff | EventDriven/timer.hpp:35-50 | in every run exactly the ids given to Cancel count as cancelled, and only those are ever discarded |
| TimerLoop.CancelEffect | EventDriven/timer.hpp:35-38 | Cancel records its id and changes nothing else |
| TimerLoop.NeverEarly | EventDriven/timer.hpp:24-33 | a timer started at some time with some timeout keeps exactly that deadline however the run goes on, and does not fire before it |
| TimerLoop.RegisterEffect | EventDriven/timer.hpp:24-33 | Register makes a timer with an id of its own, due timeOut from now, and touches no other |
| TimerLoop.RunEffect | EventDriven/timer.hpp:61-73 | Run fires the timer in hand exactly if it is due and not cancelled, drops it if it is due and cancelled, and puts it back if it is not due |
| TimerLoop.AssertionsIff | EventDriven/timer.hpp:50-51 | the assertions of Run always hold, and those of an empty GetLastTimer hold exactly when no epoll_wait of the run failed with a timer in hand |
| TimerLoop.FailedWaitLosesTimer | EventDriven/eventloopcore.cpp:27-31 | a run with one failed epoll_wait after which the next empty GetLastTimer aborts |
| TimerLoop.TimeOutMs | EventDriven/timer.hpp:54-60 | the wait is not negative, reaches the deadline, and overshoots it by one millisecond unless it is 0 |
| TimerObject.Timer.Register | EventDriven/timer.hpp:24-33 | a new id, its deadline in the heap, everything else unchanged |
| TimerObject.Timer.Cancel | EventDriven/timer.hpp:35-38 | only records the id as cancelled |
| TimerObject.Timer.GetLastTimer | EventDriven/timer.hpp:39-53 | returns an uncancelled timer whose deadline is least of all uncancelled timers at the call, having removed only cancelled ones, or false exactly when all were cancelled; its assertions hold |
| TimerObject.Timer.Run | EventDriven/timer.hpp:61-73 | computes RunStep and calls the handler exactly when the timer is due and not cancelled |
| TimerObject.Timer.Round | EventDriven/eventloopcore.cpp:22-44 | a round without a failed wait is a legal run of the protocol with one Run after GetLastTimer, whatever the handlers do |
| TimerObject.Timer.Rounds | EventDriven/eventloopcore.cpp:22-44 | any number of such rounds is a legal run in which no timer is lost |

## Left out

- `ucontext` switching, coroutine stacks and `CoroutineInit`'s stack set-up: a resumption is a step function up to the next switch back.
- Several synchronisation objects inside one `Run`: `Schedule` contains one mutex, and a coroutine's blocking elsewhere is a yield there; the other objects are modelled on their own, among coroutines that may be resumed at any time, which covers the passes over other objects.
- Creation and destruction of synchronisation objects while a pass iterates over them, which the library does not support.
- `CoroutineCreate` called by a coroutine outside a batch, `CoroutineResume4BatchStart`, `Sleep`, coroutine-local variables, `WaitGroup`, the lock guards and the condition variable.
- Scheduler.Schedule.BatchAdd: takes the batch id the caller opened; passing another id fails the library's assertion and is excluded.
- Scheduler.Schedule.constructor: a negative `max_concurrency_in_batch` and a 32-bit overflow of `(m + 1) * n` are not modelled.
- SemaphoreProtocol.Conservation: does not model the wrap-around of a 64-bit value.
- CallOnceProtocol.EveryRun: one object used with one key, and a function that does not call `Do` on its own object; several SingleFlight objects under one key are not covered.
- Exceptions thrown by a coroutine's function, a CallOnce function or a timer handler.
- ChannelProtocol.BoundedFifo: values are integers in place of pointers.
- Codec.ChunkingIrrelevant: chunks do not run past the current message; pipelined input to a reused codec is what `Codec.DeCodeHaltsIff` excludes.
- Stream.EndToEnd: descriptors, errno values other than EINTR, and blocking are outcomes of each read and write given as parameters.
- ConnOwnership.SingleOwner: on values instead of a class, since the threads share no object but the queue; a push and a pop are one step there, their inner steps being those of `BoundedQueue`; connection ids are not reused, epoll delivers only armed events, and error-only events are excluded.
- BoundedQueue.Conservation: `sem_wait` does not fail.
- TimerLoop.Conservation: ids are unbounded, and `std::priority_queue` is a multiset whose top is any entry of least deadline.
- Hash containers are sets and maps walked in any order.
- Memory allocation failure, sockets, fd passing, processes, the other servers, the BenchMark clients and their statistics, and the command-line parser.
