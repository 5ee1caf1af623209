/**
 Schedule::Run: a pass that changes anything lowers the work left, so Run ends with every slot idle and the
 mutex free, unless it comes to a state no pass changes: the mutex held by a parent that waits in BatchRun.
 */
module KernelRun {
  import opened Base
  import opened CoMutex
  import opened Kernel
  import opened KernelInv
  import opened KernelSteps
  import opened KernelDeadlock

  /** Between two resumptions. */
  ghost predicate Paused(k: Kernel) {
    Inv(k) && k.slave == INVALID
  }

  ghost predicate AtMaster(k: Kernel) {
    Paused(k) && Within(k)
  }

  /** c may be resumed by the pool loop of Run. */
  predicate Resumable(k: Kernel, c: int) {
    0 <= c < |k.cos| && (k.cos[c].state == Ready || k.cos[c].state == Suspend) && !IsParent(k, c)
  }

  /** The sizes of the pools never change. */
  predicate SameSize(k: Kernel, r: Kernel) {
    r.n == k.n && r.m == k.m && |r.cos| == |k.cos|
  }

  // ---------- Work ----------

  /** A retry of CoMutexLock that finds the lock still taken. */
  predicate FutileRetry(k: Kernel) {
    Running(k) && Self(k).call == InLock && k.mutex.lock
  }

  lemma AddsWork(k: Kernel, r: Kernel, s: int, slot: int, b: int)
    requires Adds(k, r, s, slot, b)
    requires 2 + Work(r.cos[slot].prog) + Work(r.cos[s].prog) <= Work(k.cos[s].prog)
    ensures TotalWork(r) < TotalWork(k)
  {
    var mid := k.cos[slot := r.cos[slot]];
    SumWorkUpdate(k.cos, slot, r.cos[slot]);
    SumWorkUpdate(mid, s, r.cos[s]);
    assert mid[s := r.cos[s]] == r.cos;
  }

  lemma AddWork(k: Kernel)
    requires Inv(k) && StepSafe(k) && AddsChild(k)
    ensures TotalWork(Step(k)) < TotalWork(k) && |Step(k).cos| == |k.cos|
  {
    AddReady(k);
    AddsWork(k, BatchAddStep(k), k.slave, IdleSlot(k.cos), Self(k).relateBid);
  }

  /** Every other step rewrites only the slot of the running coroutine. */
  lemma StepOwnSlot(k: Kernel)
    requires Inv(k) && StepSafe(k) && !AddsChild(k)
    ensures |Step(k).cos| == |k.cos| && Step(k).cos == k.cos[k.slave := Step(k).cos[k.slave]]
    ensures FutileRetry(k) || CoWork(Step(k).cos[k.slave]) < CoWork(Self(k))
    ensures FutileRetry(k) ==> Step(k).slave == INVALID && CoWork(Step(k).cos[k.slave]) == CoWork(Self(k))
  {
    assert CoInv(k, k.slave);
  }

  lemma StepWork(k: Kernel)
    requires Inv(k) && Running(k) && StepSafe(k)
    ensures FutileRetry(k) || TotalWork(Step(k)) < TotalWork(k)
    ensures FutileRetry(k) ==> Step(k).slave == INVALID && TotalWork(Step(k)) == TotalWork(k)
    ensures |Step(k).cos| == |k.cos|
  {
    if AddsChild(k) {
      AddWork(k);
    } else {
      StepOwnSlot(k);
      SumWorkUpdate(k.cos, k.slave, Step(k).cos[k.slave]);
    }
  }

  lemma ResumeWork(k: Kernel, c: int)
    requires 0 <= c < |k.cos| && k.cos[c].state != Idle
    ensures TotalWork(Resume(k, c)) == TotalWork(k)
  {
    SumWorkUpdate(k.cos, c, Resume(k, c).cos[c]);
  }

  // ---------- One resumption ----------

  /** What the switch into the running coroutine executes: its steps up to the next switch back. */
  function RunSlice(k: Kernel): (r: Kernel)
    requires Inv(k) && Within(k) && Running(k)
    ensures AtMaster(r) && r.finishPos == k.finishPos && SameSize(k, r)
    ensures FutileRetry(k) || TotalWork(r) < TotalWork(k)
    ensures TotalWork(r) <= TotalWork(k)
    ensures Fate(k, r)
    decreases TotalWork(k)
  {
    StepInv(k);
    StepWork(k);
    StepFate(k);
    WithinKept(k, Step(k));
    var r := Step(k);
    if r.slave == INVALID then r else RunSlice(r)
  }

  function ResumeSlice(k: Kernel, c: int): (r: Kernel)
    requires AtMaster(k) && Resumable(k, c)
    ensures AtMaster(r) && r.finishPos == k.finishPos && SameSize(k, r) && TotalWork(r) <= TotalWork(k)
    ensures Fate(k, r)
  {
    ResumeInv(k, c);
    ResumeWork(k, c);
    SwitchFate(k, Resume(k, c));
    RunSlice(Resume(k, c))
  }

  /** A spurious wake-up of a coroutine that waits for a taken lock changes nothing at all. */
  lemma ResumeFutile(k: Kernel, c: int)
    requires AtMaster(k) && Resumable(k, c) && k.cos[c].call == InLock && k.mutex.lock
    ensures ResumeSlice(k, c) == k
  {
    ResumeInv(k, c);
    var k1 := Resume(k, c);
    StepInv(k1);
    assert CoInv(k, c);
    assert c in k.mutex.queue;
    assert Step(k1).cos == k.cos;
    assert Step(k1) == k;
  }

  /** Resuming c either does some of the work left or, when c waits for a taken lock, changes nothing at all. */
  lemma ResumeProgress(k: Kernel, c: int)
    requires AtMaster(k) && Resumable(k, c)
    ensures TotalWork(ResumeSlice(k, c)) < TotalWork(k)
            || (ResumeSlice(k, c) == k && k.cos[c].call == InLock && k.mutex.lock)
  {
    if k.cos[c].call == InLock && k.mutex.lock {
      ResumeFutile(k, c);
    } else {
      ResumeInv(k, c);
      ResumeWork(k, c);
    }
  }

  // ---------- The loops of Run ----------

  /** One turn of the loop over the pool: slot i is resumed if it can be. */
  function PoolTurn(k: Kernel, i: nat): (r: Kernel)
    requires AtMaster(k) && i < |k.cos|
    ensures AtMaster(r) && r.finishPos == k.finishPos && SameSize(k, r) && TotalWork(r) <= TotalWork(k)
    ensures Fate(k, r)
  {
    if Resumable(k, i) then ResumeSlice(k, i) else k
  }

  /** The loop over the pool from slot i on. */
  function PoolPass(k: Kernel, i: nat): (r: Kernel)
    requires AtMaster(k) && i <= |k.cos|
    ensures AtMaster(r) && r.finishPos == k.finishPos && SameSize(k, r) && TotalWork(r) <= TotalWork(k)
    ensures Fate(k, r)
    decreases |k.cos| - i
  {
    if i == |k.cos| then k else PoolPass(PoolTurn(k, i), i + 1)
  }

  /** Whoever can be resumed from slot i on waits for a taken lock. */
  predicate StuckFrom(k: Kernel, i: nat) {
    forall c :: i <= c < |k.cos| && Resumable(k, c) ==> k.cos[c].call == InLock && k.mutex.lock
  }

  lemma StuckMore(k: Kernel, i: nat)
    requires StuckFrom(k, i + 1) && (Resumable(k, i) ==> k.cos[i].call == InLock && k.mutex.lock)
    ensures StuckFrom(k, i)
  {}

  lemma TurnProgress(k: Kernel, i: nat)
    requires AtMaster(k) && i < |k.cos|
    ensures TotalWork(PoolTurn(k, i)) < TotalWork(k)
            || (PoolTurn(k, i) == k && (Resumable(k, i) ==> k.cos[i].call == InLock && k.mutex.lock))
  {
    if Resumable(k, i) { ResumeProgress(k, i); }
  }

  lemma {:induction false} PoolProgress(k: Kernel, i: nat)
    requires AtMaster(k) && i <= |k.cos|
    ensures TotalWork(PoolPass(k, i)) < TotalWork(k) || (PoolPass(k, i) == k && StuckFrom(k, i))
    decreases |k.cos| - i
  {
    if i == |k.cos| {
    } else {
      var r := PoolTurn(k, i);
      TurnProgress(k, i);
      PoolProgress(r, i + 1);
      if r == k && StuckFrom(k, i + 1) { StuckMore(k, i); }
    }
  }

  lemma {:induction false} PoolStuck(k: Kernel, i: nat)
    requires AtMaster(k) && i <= |k.cos| && StuckFrom(k, i)
    ensures PoolPass(k, i) == k
    decreases |k.cos| - i
  {
    if i == |k.cos| {
    } else {
      if Resumable(k, i) { ResumeFutile(k, i); }
      PoolStuck(k, i + 1);
    }
  }

  function ParentSlice(k: Kernel): (r: Kernel)
    requires AtMaster(k) && k.finishPos < |k.finishList|
    ensures AtMaster(r) && r.finishPos == k.finishPos + 1 && SameSize(k, r)
    ensures TotalWork(r) < TotalWork(k)
    ensures Fate(k, r)
  {
    ResumeParentInv(k);
    ResumeWork(k, k.finishList[k.finishPos]);
    SwitchFate(k, ResumeParent(k));
    RunSlice(ResumeParent(k))
  }

  lemma ClearInv(k: Kernel)
    requires Paused(k) && k.finishPos >= |k.finishList|
    ensures var r := k.(finishList := [], finishPos := 0); Paused(r) && Tops(r) == Tops(k) && Fate(k, r)
  {
    var r := k.(finishList := [], finishPos := 0);
    assert Pending(r) == [] == Pending(k);
    assert forall c :: 0 <= c < |k.cos| && CoInv(k, c) ==> CoInv(r, c);
    forall b | 0 <= b < |k.batchs| ensures BatchInv(r, b) {
      assert BatchInv(k, b);
      if k.batchs[b].state != Idle {
        forall c | c in r.batchs[b].childFinish ensures ChildOf(r, c, b) { assert ChildOf(k, c, b); }
      }
    }
    assert Tops(r) == Tops(k);
    SwitchFate(k, r);
  }

  /** CoroutineResume4BatchFinish: resumes the queued parents, then clears the list. */
  function FinishPass(k: Kernel): (r: Kernel)
    requires AtMaster(k)
    ensures AtMaster(r) && r.finishPos == 0 && r.finishList == [] && SameSize(k, r)
    ensures TotalWork(r) <= TotalWork(k)
    ensures k.finishPos < |k.finishList| ==> TotalWork(r) < TotalWork(k)
    ensures Fate(k, r)
    decreases TotalWork(k)
  {
    if k.finishPos < |k.finishList| then FinishPass(ParentSlice(k))
    else
      ClearInv(k);
      k.(finishList := [], finishPos := 0)
  }

  /** CoMutexResume takes the head of the queue and switches to it. */
  function PickResume(k: Kernel): Kernel
    requires HasPick(k.mutex) && 0 <= k.mutex.queue[0] < |k.cos|
  {
    Resume(k.(mutex := Pick(k.mutex).0), k.mutex.queue[0])
  }

  lemma PickInv(k: Kernel)
    requires Paused(k) && HasPick(k.mutex)
    ensures var c := k.mutex.queue[0];
            && ResumeSafe(k, c) && Resumable(k, c) && k.cos[c].call == InLock && !FutileRetry(PickResume(k))
            && Inv(PickResume(k)) && Tops(PickResume(k)) == Tops(k)
  {
    var c := k.mutex.queue[0];
    assert c in k.mutex.queue;
    assert CoInv(k, c);
    var r := PickResume(k);
    var q := k.mutex.queue;
    assert forall x :: x in q <==> x == q[0] || x in q[1..];
    assert MutexInv(r);
    QuietInv(k, r, c);
  }

  function MutexPass(k: Kernel): (r: Kernel)
    requires AtMaster(k)
    ensures AtMaster(r) && r.finishPos == k.finishPos && SameSize(k, r) && TotalWork(r) <= TotalWork(k)
    ensures Fate(k, r)
  {
    if HasPick(k.mutex) then
      PickInv(k);
      ResumeWork(k.(mutex := Pick(k.mutex).0), k.mutex.queue[0]);
      SwitchFate(k, PickResume(k));
      RunSlice(PickResume(k))
    else k
  }

  function Pass(k: Kernel): (r: Kernel)
    requires AtMaster(k)
    ensures AtMaster(r) && r.finishPos == 0 && SameSize(k, r) && TotalWork(r) <= TotalWork(k)
    ensures Fate(k, r)
  {
    MutexPass(FinishPass(PoolPass(k, 0)))
  }

  // ---------- Progress of a pass ----------

  /** Somebody is alive, no parent is queued, and whoever can be resumed waits for a taken lock. */
  predicate Stuck(k: Kernel) {
    k.notIdle > 0 && k.finishList == [] && StuckFrom(k, 0)
  }

  /** The holder of the mutex is not waiting for it, and can be resumed unless it waits in BatchRun. */
  lemma HolderRuns(k: Kernel)
    requires Paused(k) && k.mutex.lock
    ensures var h := k.mutex.hold; 0 <= h < |k.cos| && k.cos[h].call != InLock && (Resumable(k, h) <==> k.cos[h].call != InBatchRun)
  {
    assert CoInv(k, k.mutex.hold);
  }

  /** A waiting parent has a child that can be resumed, or is queued. */
  lemma ParentHasReason(k: Kernel, p: int)
    requires Paused(k) && IsParent(k, p) && k.cos[p].state != Idle
    ensures p in Pending(k) || exists c :: Resumable(k, c) && IsChild(k, c) && k.cos[c].relateBid == k.cos[p].relateBid
  {
    assert CoInv(k, p);
    var b := k.cos[p].relateBid;
    assert BatchInv(k, b);
    if !AllDone(k.batchs[b].childFinish) {
      var c :| c in k.batchs[b].childFinish && !k.batchs[b].childFinish[c];
      assert ChildOf(k, c, b);
      assert CoInv(k, c);
      assert Resumable(k, c);
    }
  }

  /** Either some live coroutine is resumable, or a parent is queued. */
  lemma SomebodyMoves(k: Kernel)
    requires Paused(k) && k.notIdle > 0
    ensures Pending(k) != [] || exists c :: Resumable(k, c)
  {
    CountLiveZero(k.cos);
    var p :| 0 <= p < |k.cos| && k.cos[p].state != Idle;
    assert CoInv(k, p);
    if IsParent(k, p) { ParentHasReason(k, p); } else { assert Resumable(k, p); }
  }

  /** Run can only get stuck on a mutex whose holder waits in BatchRun. */
  lemma StuckOnHolder(k: Kernel)
    requires Paused(k) && k.finishPos == 0 && Stuck(k)
    ensures k.mutex.lock && 0 <= k.mutex.hold < |k.cos| && k.cos[k.mutex.hold].call == InBatchRun
  {
    SomebodyMoves(k);
    assert Pending(k) == [];
    HolderRuns(k);
  }

  /** And then a child in that batch waits for the mutex. */
  lemma StuckIsDead(k: Kernel)
    requires Paused(k) && k.finishPos == 0 && Stuck(k)
    ensures Dead(k)
  {
    StuckOnHolder(k);
    var p := k.mutex.hold;
    JoinerPlace(k, p);
    ParentHasReason(k, p);
    assert Pending(k) == [];
    var c :| Resumable(k, c) && IsChild(k, c) && k.cos[c].relateBid == k.cos[p].relateBid;
    assert CoInv(k, c);
    assert KidWants(k, c, p);
  }

  lemma DeadIsAlive(k: Kernel)
    requires Paused(k) && Dead(k)
    ensures k.notIdle > 0
  {
    CountLiveZero(k.cos);
  }

  /** A pass over somebody alive either lowers the work left or, exactly in a stuck state, changes nothing. */
  lemma PassProgress(k: Kernel)
    requires AtMaster(k) && k.finishPos == 0 && k.notIdle > 0
    ensures Stuck(k) <==> Pass(k) == k
    ensures !Stuck(k) ==> TotalWork(Pass(k)) < TotalWork(k)
    ensures FreeInv(k) ==> !Stuck(k)
  {
    if Stuck(k) {
      StuckIsDead(k);
      StuckOnHolder(k);
      PoolStuck(k, 0);
      assert FinishPass(k) == k;
    } else {
      PoolProgress(k, 0);
    }
  }

  /** The passes of Run, up to the first that would change nothing; Run goes on with that one for ever. */
  function RunAll(k: Kernel): (r: Kernel)
    requires AtMaster(k) && k.finishPos == 0
    ensures AtMaster(r) && r.finishPos == 0 && SameSize(k, r) && (r.notIdle <= 0 || Stuck(r))
    ensures Fate(k, r)
    decreases TotalWork(k)
  {
    if k.notIdle <= 0 then k
    else
      PassProgress(k);
      if Stuck(k) then k else RunAll(Pass(k))
  }

  /** n passes, or fewer if Run returns before. */
  function Passes(k: Kernel, n: nat): Kernel
    requires AtMaster(k) && k.finishPos == 0
    decreases n
  {
    if n == 0 || k.notIdle <= 0 then k else Passes(Pass(k), n - 1)
  }

  /** Run returns. */
  ghost predicate Returns(k: Kernel)
    requires AtMaster(k) && k.finishPos == 0
  {
    exists n: nat :: Passes(k, n).notIdle <= 0
  }

  lemma PassesMore(k: Kernel, n: nat)
    requires AtMaster(k) && k.finishPos == 0 && k.notIdle > 0 && n > 0
    ensures Passes(k, n) == Passes(Pass(k), n - 1)
  {}

  lemma StuckPass(k: Kernel)
    requires AtMaster(k) && k.finishPos == 0 && Stuck(k)
    ensures k.notIdle > 0 && Pass(k) == k
  {
    PassProgress(k);
  }

  lemma {:induction false} StuckPasses(k: Kernel, n: nat)
    requires AtMaster(k) && k.finishPos == 0 && Stuck(k)
    ensures Passes(k, n) == k
    decreases n
  {
    if n == 0 {
    } else {
      StuckPass(k);
      PassesMore(k, n);
      StuckPasses(k, n - 1);
    }
  }

  lemma StuckNeverReturns(k: Kernel)
    requires AtMaster(k) && k.finishPos == 0 && Stuck(k)
    ensures Pass(k) == k && !Returns(k)
  {
    StuckPass(k);
    forall n: nat ensures Passes(k, n).notIdle > 0 { StuckPasses(k, n); }
  }

  lemma ReturnsNext(k: Kernel)
    requires AtMaster(k) && k.finishPos == 0 && k.notIdle > 0
    ensures Returns(k) <==> Returns(Pass(k))
  {
    if Returns(k) {
      var n: nat :| Passes(k, n).notIdle <= 0;
      PassesMore(k, n);
      assert Passes(Pass(k), n - 1).notIdle <= 0;
    }
    if Returns(Pass(k)) {
      var n: nat :| Passes(Pass(k), n).notIdle <= 0;
      PassesMore(k, n + 1);
      assert Passes(k, n + 1).notIdle <= 0;
    }
  }

  lemma {:induction false} ReturnsUnlessStuck(k: Kernel)
    requires AtMaster(k) && k.finishPos == 0
    ensures Returns(k) <==> !Stuck(RunAll(k))
    decreases TotalWork(k)
  {
    if k.notIdle <= 0 {
      assert Passes(k, 0).notIdle <= 0;
    } else {
      PassProgress(k);
      if Stuck(k) {
        StuckNeverReturns(k);
      } else {
        ReturnsNext(k);
        ReturnsUnlessStuck(Pass(k));
      }
    }
  }

  /** Run does not return from a state in which a parent with the mutex waits for a child that wants it. */
  lemma DeadNeverReturns(k: Kernel)
    requires AtMaster(k) && k.finishPos == 0 && Dead(k)
    ensures !Returns(k)
  {
    ReturnsUnlessStuck(k);
    DeadIsAlive(RunAll(k));
  }

  /** Run returns exactly when it does not come to such a state, and so for programs that keep the rule. */
  lemma ReturnsUnlessDead(k: Kernel)
    requires AtMaster(k) && k.finishPos == 0
    ensures Returns(k) <==> !Dead(RunAll(k))
    ensures FreeInv(k) ==> Returns(k)
  {
    ReturnsUnlessStuck(k);
    if Stuck(RunAll(k)) { StuckIsDead(RunAll(k)); }
    if Dead(RunAll(k)) { DeadIsAlive(RunAll(k)); }
  }

  lemma AllIdle(k: Kernel)
    requires Paused(k) && k.notIdle <= 0
    ensures k.notIdle == 0 && forall c :: 0 <= c < |k.cos| ==> k.cos[c].state == Idle
  {
    CountLiveZero(k.cos);
  }

  lemma NothingLeft(k: Kernel)
    requires Paused(k) && k.finishPos == 0 && forall c :: 0 <= c < |k.cos| ==> k.cos[c].state == Idle
    ensures forall b :: 0 <= b < |k.batchs| ==> k.batchs[b] == IDLE_BATCH
    ensures k.finishList == [] && k.mutex == FREE
  {
    forall b | 0 <= b < |k.batchs| ensures k.batchs[b] == IDLE_BATCH { assert BatchInv(k, b); }
    assert Pending(k) == k.finishList;
    assert !k.mutex.lock;
    assert forall c :: c !in k.mutex.queue;
    assert forall c :: c !in k.finishList;
    EmptySeq(k.mutex.queue);
    EmptySeq(k.finishList);
  }

  /** Every slot and batch idle, no parent queued, and the mutex free with nobody waiting. */
  ghost predicate Quiescent(k: Kernel) {
    && k.notIdle == 0 && (forall c :: 0 <= c < |k.cos| ==> k.cos[c].state == Idle)
    && (forall b :: 0 <= b < |k.batchs| ==> k.batchs[b] == IDLE_BATCH)
    && k.finishList == [] && k.mutex == FREE
  }

  lemma RunEndsIdle(k: Kernel)
    requires AtMaster(k) && k.finishPos == 0
    ensures Quiescent(RunAll(k)) <==> !Stuck(RunAll(k))
  {
    if RunAll(k).notIdle <= 0 {
      AllIdle(RunAll(k));
      NothingLeft(RunAll(k));
    }
  }

  lemma InitInv(n: nat, m: nat)
    requires n > 0 && (m + 1) * n <= MAX_COROUTINE
    ensures AtMaster(Init(n, m)) && FreeInv(Init(n, m)) && Init(n, m).finishPos == 0
  {
    var k := Init(n, m);
    CountLiveZero(k.cos);
    assert Tops(k) == {};
  }
}
