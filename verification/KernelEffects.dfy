/**
 What each call of a coroutine does to the scheduler, slot by slot: every slot, batch and queue a call
 touches is named, and everything else stays as it was.
 */
module KernelEffects {
  import opened Base
  import opened Kernel
  import opened KernelInv
  import opened KernelSteps
  import opened KernelDeadlock

  /** Slots other than s are as they were. */
  ghost predicate SlotsKept(k: Kernel, r: Kernel, s: int) {
    |r.cos| == |k.cos| && forall c :: 0 <= c < |k.cos| && c != s ==> r.cos[c] == k.cos[c]
  }

  ghost predicate BatchesKept(k: Kernel, r: Kernel, b: int) {
    |r.batchs| == |k.batchs| && forall x :: 0 <= x < |k.batchs| && x != b ==> r.batchs[x] == k.batchs[x]
  }

  /** Only the slot of the running coroutine and possibly the mutex differ, and it goes on or the master does. */
  ghost predicate OwnCall(k: Kernel, r: Kernel, goesOn: bool) {
    && SlotsKept(k, r, k.slave) && r.batchs == k.batchs && r.finishList == k.finishList && r.notIdle == k.notIdle
    && r.slave == if goesOn then k.slave else INVALID
  }

  lemma YieldEffect(k: Kernel)
    requires StepSafe(k) && Self(k).call == NoCall && Self(k).prog.Yield?
    ensures var r := Step(k);
            && OwnCall(k, r, false) && r.mutex == k.mutex
            && r.cos[k.slave] == Self(k).(state := Suspend, prog := Self(k).prog.next)
  {}

  /** CoMutexLock takes a free lock and returns; otherwise the caller is suspended inside the call with one place in the queue. */
  lemma LockEffect(k: Kernel)
    requires StepSafe(k) && (Self(k).call == InLock || (Self(k).call == NoCall && Self(k).prog.Lock?))
    ensures var r := Step(k);
            && OwnCall(k, r, !k.mutex.lock) && r.mutex.lock
            && if !k.mutex.lock then
                 && r.mutex.hold == k.slave && r.mutex.queue == k.mutex.queue
                 && r.cos[k.slave] == Self(k).(prog := Self(k).prog.next, call := NoCall)
               else
                 && r.mutex.hold == k.mutex.hold
                 && r.mutex.queue == (if k.slave in k.mutex.queue then k.mutex.queue else k.mutex.queue + [k.slave])
                 && r.cos[k.slave] == Self(k).(state := Suspend, call := InLock)
  {}

  lemma TryLockEffect(k: Kernel)
    requires StepSafe(k) && Self(k).call == NoCall && Self(k).prog.TryLock?
    ensures var r, ok := Step(k), !k.mutex.lock;
            && OwnCall(k, r, true) && r.mutex.lock && r.mutex.queue == k.mutex.queue
            && r.mutex.hold == (if ok then k.slave else k.mutex.hold)
            && r.cos[k.slave] == Self(k).(prog := if ok then Self(k).prog.yes else Self(k).prog.no)
  {}

  lemma UnLockEffect(k: Kernel)
    requires MutexInv(k) && StepSafe(k) && Self(k).call == NoCall && Self(k).prog.UnLock?
    ensures var r := Step(k);
            && OwnCall(k, r, true) && !r.mutex.lock && r.mutex.hold == INVALID
            && TakenOut(k.mutex.queue, k.slave, r.mutex.queue)
            && r.cos[k.slave] == Self(k).(prog := Self(k).prog.next)
  {
    RemoveFirstTakesOut(k.mutex.queue, k.slave);
  }

  /** b is the lowest idle batch. */
  predicate LowestIdleBatch(k: Kernel, b: int) {
    0 <= b < |k.batchs| && k.batchs[b].state == Idle && forall x :: 0 <= x < b ==> k.batchs[x].state != Idle
  }

  /** BatchCreate opens the lowest idle batch, empty, for the caller; without one the caller goes on with the other branch. */
  lemma BatchCreateEffect(k: Kernel)
    requires Inv(k) && StepSafe(k) && Self(k).call == NoCall && Self(k).prog.BatchCreate?
    ensures var r := Step(k);
            && SlotsKept(k, r, k.slave) && r.slave == k.slave && r.mutex == k.mutex
            && r.finishList == k.finishList && r.notIdle == k.notIdle
    ensures forall b :: LowestIdleBatch(k, b) ==>
              && BatchesKept(k, Step(k), b) && Step(k).batchs[b] == Batch(Ready, k.slave, map[])
              && Step(k).cos[k.slave] == Self(k).(prog := Self(k).prog.next, relateBid := b)
    ensures (forall b :: 0 <= b < |k.batchs| ==> k.batchs[b].state != Idle) ==>
              Step(k).batchs == k.batchs && Step(k).cos[k.slave] == Self(k).(prog := Self(k).prog.none)
  {
    IdleBatchSpec(k.batchs, 0);
    if IdleBatch(k.batchs) != INVALID { IdleUnrelated(k, IdleBatch(k.batchs)); }
  }

  /** c is the lowest idle slot. */
  predicate LowestIdleSlot(k: Kernel, c: int) {
    0 <= c < |k.cos| && k.cos[c].state == Idle && forall d :: 0 <= d < c ==> k.cos[d].state != Idle
  }

  /** Slot c went from idle to a coroutine that is ready to run prog from its beginning, related to batch b. */
  ghost predicate Born(k: Kernel, r: Kernel, c: int, prog: Prog, b: int) {
    && LowestIdleSlot(k, c) && c < |r.cos|
    && r.cos[c].state == Ready && r.cos[c].prog == prog && r.cos[c].call == NoCall && r.cos[c].relateBid == b
    && r.cos[c].serial == k.nextSerial < r.nextSerial
  }

  /** BatchAdd put the caller's task into slot c and into the caller's batch, as not finished, and the caller goes on. */
  ghost predicate AddedChild(k: Kernel, r: Kernel, c: int)
    requires HasOpenBatch(k) && Self(k).prog.BatchAdd?
  {
    var b := Self(k).relateBid;
    && Born(k, r, c, Self(k).prog.child, b) && c != k.slave
    && |r.cos| == |k.cos| && (forall d :: 0 <= d < |k.cos| && d != c && d != k.slave ==> r.cos[d] == k.cos[d])
    && r.cos[k.slave] == Self(k).(prog := Self(k).prog.added)
    && BatchesKept(k, r, b) && r.batchs[b] == k.batchs[b].(childFinish := r.batchs[b].childFinish)
    && c !in k.batchs[b].childFinish && r.batchs[b].childFinish == k.batchs[b].childFinish[c := false]
    && r.notIdle == k.notIdle + 1 && r.slave == k.slave && r.mutex == k.mutex && r.finishList == k.finishList
    && r.trace == k.trace + [Added(Self(k).serial, r.cos[c].serial)]
  }

  /** BatchAdd found the batch full: no slot but the caller's and no batch changes. */
  ghost predicate AddedNone(k: Kernel, r: Kernel)
    requires Running(k) && Self(k).prog.BatchAdd?
  {
    OwnCall(k, r, true) && r.mutex == k.mutex && r.cos[k.slave] == Self(k).(prog := Self(k).prog.full)
  }

  /** The outcome of BatchAdd: a child added to a batch with room, or none to a full one. */
  ghost predicate AddOutcome(k: Kernel, r: Kernel)
    requires HasOpenBatch(k) && Self(k).prog.BatchAdd?
  {
    if |k.batchs[Self(k).relateBid].childFinish| < k.m then exists c :: AddedChild(k, r, c) else AddedNone(k, r)
  }

  lemma BatchAddDoes(k: Kernel, r: Kernel)
    requires Inv(k) && HasOpenBatch(k) && Self(k).call == NoCall && Self(k).prog.BatchAdd?
    requires |k.batchs[Self(k).relateBid].childFinish| < k.m ==> IdleSlot(k.cos) != INVALID
    requires r == BatchAddStep(k)
    ensures AddOutcome(k, r)
  {
    AddReady(k);
    if |k.batchs[Self(k).relateBid].childFinish| < k.m {
      IdleSlotSpec(k.cos, 0);
      assert AddedChild(k, r, IdleSlot(k.cos));
    }
  }

  /**
   BatchAdd. With room in the batch exactly one new coroutine comes alive, in the lowest idle slot, ready to run the
   task the caller passed and listed as an unfinished child of the caller's batch; a full batch changes no slot.
   */
  lemma BatchAddEffect(k: Kernel)
    requires Inv(k) && StepSafe(k) && Self(k).call == NoCall && Self(k).prog.BatchAdd?
    ensures HasOpenBatch(k) && AddOutcome(k, Step(k))
  {
    AddReady(k);
    BatchAddDoes(k, Step(k));
  }

  /** BatchRun starts the caller's batch and suspends the caller inside the call. */
  lemma BatchRunEffect(k: Kernel)
    requires StepSafe(k) && Self(k).call == NoCall && Self(k).prog.BatchRun?
    ensures var r, b := Step(k), Self(k).relateBid;
            && SlotsKept(k, r, k.slave) && BatchesKept(k, r, b) && r.batchs[b] == k.batchs[b].(state := Run)
            && r.cos[k.slave] == Self(k).(state := Suspend, prog := Self(k).prog.next, call := InBatchRun)
            && r.slave == INVALID && r.mutex == k.mutex && r.finishList == k.finishList && r.notIdle == k.notIdle
  {}

  /** BatchRun returns to a caller all of whose children have finished; the caller has no batch any more and goes on. */
  lemma JoinEffect(k: Kernel)
    requires Inv(k) && Running(k) && Self(k).call == InBatchRun
    ensures StepSafe(k)
    ensures var r, b := Step(k), Self(k).relateBid;
            && 0 <= b < |k.batchs| && AllDone(k.batchs[b].childFinish)
            && SlotsKept(k, r, k.slave) && BatchesKept(k, r, b) && r.batchs[b] == IDLE_BATCH
            && r.cos[k.slave] == Self(k).(relateBid := INVALID, call := NoCall)
            && r.slave == k.slave && r.mutex == k.mutex && r.finishList == k.finishList && r.notIdle == k.notIdle
  {
    JoinReady(k);
  }

  /** Every other child of the batch of c has finished. */
  predicate OthersFinished(k: Kernel, c: int)
    requires IsChild(k, c)
  {
    var kids := k.batchs[k.cos[c].relateBid].childFinish;
    forall d :: d in kids && d != c ==> kids[d]
  }

  lemma EndsQueues(k: Kernel, r: Kernel, c: int, b: int)
    requires Ends(k, r, c, b) && IsChild(k, c)
    ensures r.finishList == k.finishList + if OthersFinished(k, c) then [k.batchs[b].parentCid] else []
  {
    var kids, after := k.batchs[b].childFinish, r.batchs[b].childFinish;
    assert forall d :: d in after <==> d in kids;
    assert forall d :: d in kids && d != c ==> after[d] == kids[d];
  }

  /** The last child to finish, and only that one, queues its parent. */
  lemma EndQueues(k: Kernel)
    requires Inv(k) && StepSafe(k) && Self(k).call == NoCall && Self(k).prog == End && IsChild(k, k.slave)
    ensures Step(k).finishList ==
            k.finishList + if OthersFinished(k, k.slave) then [k.batchs[Self(k).relateBid].parentCid] else []
  {
    EndReady(k);
    EndsQueues(k, Step(k), k.slave, Self(k).relateBid);
  }

  /** The end of a coroutine frees its slot; a child is marked finished in its batch, where it was listed. */
  lemma EndEffect(k: Kernel)
    requires Inv(k) && StepSafe(k) && Self(k).call == NoCall && Self(k).prog == End
    ensures var r, b := Step(k), Self(k).relateBid;
            && SlotsKept(k, r, k.slave) && r.cos[k.slave].state == Idle && r.cos[k.slave].relateBid == INVALID
            && r.slave == INVALID && r.mutex == k.mutex && r.notIdle == k.notIdle - 1
            && (b == INVALID ==> r.batchs == k.batchs && r.finishList == k.finishList)
            && (b != INVALID ==>
                 && IsChild(k, k.slave) && k.slave in k.batchs[b].childFinish && BatchesKept(k, r, b)
                 && r.batchs[b] == k.batchs[b].(childFinish := k.batchs[b].childFinish[k.slave := true]))
  {
    EndReady(k);
  }

  /** Besides BatchAdd, the history records the return from BatchRun, the end of a coroutine and the queueing of its parent, each by serial. */
  lemma HistoryEffect(k: Kernel)
    requires Inv(k) && StepSafe(k) && !AddsChild(k)
    ensures Step(k).trace == k.trace +
            if Self(k).call == InBatchRun then [Joined(Self(k).serial)]
            else if Self(k).call == InLock || Self(k).prog != End then []
            else if |Step(k).finishList| == |k.finishList| then [Done(Self(k).serial)]
            else [Done(Self(k).serial), Queued(k.cos[Step(k).finishList[|k.finishList|]].serial)]
    ensures Step(k).nextSerial == k.nextSerial
  {}

  /** CoroutineCreate by the master: the lowest idle slot becomes a coroutine of its own; without one nothing changes. */
  lemma CreateEffect(k: Kernel, prog: Prog)
    ensures var (r, c) := CreateStep(k, prog, INVALID);
            if c == INVALID then r == k && forall d :: 0 <= d < |k.cos| ==> k.cos[d].state != Idle
            else
              && Born(k, r, c, prog, INVALID) && SlotsKept(k, r, c) && r.notIdle == k.notIdle + 1
              && r.batchs == k.batchs && r.finishList == k.finishList && r.mutex == k.mutex && r.slave == k.slave && r.trace == k.trace
  {
    IdleSlotSpec(k.cos, 0);
  }
}
