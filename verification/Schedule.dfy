/**
 The Schedule class with its fields updated in place. Each method is proved to compute the step of
 the same name on the abstract state K(); the assertions of the library appear as assert statements.
 */
module Scheduler {
  import opened Base
  import opened CoMutex
  import opened CoMutexObject
  import opened Kernel
  import opened KernelInv
  import opened KernelSteps
  import opened KernelEffects
  import opened KernelRun
  import opened KernelTrace
  import opened KernelDeadlock
  import opened KernelReturns
  import opened KernelPasses

  class Schedule {
    const n: nat
    const m: nat
    var isMaster: bool
    var slaveCid: int
    var notIdleCount: int
    const coroutineCount: nat
    const coroutines: array<Coroutine>
    const batchs: array<Batch>
    var batchFinishCidList: seq<int>
    const mutex: MutexObject
    // History of the run; no decision of the scheduler reads it.
    var nextSerial: nat
    ghost var finishPos: nat
    ghost var trace: seq<Event>

    ghost function K(): Kernel
      reads this, coroutines, batchs, mutex
    {
      Kernel(n, m, coroutines[..], batchs[..], batchFinishCidList, finishPos, notIdleCount, slaveCid, mutex.M(), nextSerial, trace)
    }

    ghost predicate Valid()
      reads this, coroutines, batchs, mutex
    {
      && coroutines.Length == coroutineCount && (isMaster <==> slaveCid == INVALID)
      && Inv(K()) && TraceInv(K())
    }

    constructor (coroutineCount: nat, maxConcurrencyInBatch: nat)
      requires coroutineCount > 0 && coroutineCount <= MAX_COROUTINE
      requires (maxConcurrencyInBatch + 1) * coroutineCount <= MAX_COROUTINE
      ensures Valid() && K() == Init(coroutineCount, maxConcurrencyInBatch) && AtMaster(K())
      ensures fresh(coroutines) && fresh(batchs) && fresh(mutex)
    {
      n, m := coroutineCount, maxConcurrencyInBatch;
      var count := (maxConcurrencyInBatch + 1) * coroutineCount;
      this.coroutineCount := count;
      coroutines := new Coroutine[count](_ => IDLE_COROUTINE);
      batchs := new Batch[MAX_BATCH](_ => IDLE_BATCH);
      mutex := new MutexObject();
      isMaster, slaveCid, notIdleCount, batchFinishCidList := true, INVALID, 0, [];
      nextSerial, finishPos, trace := 0, 0, [];
      new;
      InitInv(n, m);
      InitTrace(n, m);
      assert coroutines[..] == Init(n, m).cos;
      assert batchs[..] == Init(n, m).batchs;
    }

    /** CoroutineCreate with its scan for the lowest idle slot; serves the master and BatchAdd. */
    method CoroutineCreate(prog: Prog, relateBid: int) returns (cid: int)
      requires coroutines.Length == coroutineCount
      modifies this, coroutines
      ensures (K(), cid) == CreateStep(old(K()), prog, relateBid)
      ensures slaveCid == old(slaveCid) && isMaster == old(isMaster)
    {
      cid := 0;
      while cid < coroutineCount && coroutines[cid].state != Idle
        invariant 0 <= cid <= coroutineCount && K() == old(K()) && slaveCid == old(slaveCid) && isMaster == old(isMaster)
        invariant IdleSlot(coroutines[..], cid) == IdleSlot(coroutines[..])
      {
        cid := cid + 1;
      }
      if cid >= coroutineCount { return INVALID; }
      coroutines[cid] := Coroutine(Ready, relateBid, prog, NoCall, nextSerial);
      notIdleCount := notIdleCount + 1;
      nextSerial := nextSerial + 1;
    }

    /** CoroutineCreate called by the master. It fails exactly when every slot is taken, and never within the allowance. */
    method Spawn(prog: Prog) returns (cid: int)
      requires Valid() && Paused(K()) && Wf(prog, m, Closed, false, false)
      modifies this, coroutines
      ensures Valid() && isMaster && (K(), cid) == CreateStep(old(K()), prog, INVALID)
      ensures cid == INVALID <==> forall c :: 0 <= c < coroutineCount ==> old(coroutines[c]).state != Idle
      ensures cid != INVALID ==> Born(old(K()), K(), cid, prog, INVALID) && SlotsKept(old(K()), K(), cid)
      ensures old(|Tops(K())| < n) ==> cid != INVALID && AtMaster(K())
      ensures old(FreeInv(K())) && FreeAtJoin(prog, Closed, false, false) ==> FreeInv(K())
    {
      CreateFate(K(), prog);
      MasterCreate(K(), prog);
      CreateEffect(K(), prog);
      CreateFailsIff(K(), prog, INVALID);
      cid := CoroutineCreate(prog, INVALID);
    }

    /** CoroutineYield up to the switch to the master. */
    method CoroutineYield()
      requires !isMaster && 0 <= slaveCid < coroutines.Length && coroutines[slaveCid].state == Run
      modifies this, coroutines
      ensures K() == Suspended(old(K())) && isMaster
    {
      coroutines[slaveCid] := coroutines[slaveCid].(state := Suspend);
      isMaster, slaveCid := true, INVALID;
    }

    method CoMutexLock()
      requires Valid() && Running(K()) && Self(K()).prog.Lock? && StepSafe(K()) && Self(K()).call != InBatchRun
      modifies this, coroutines, mutex
      ensures K() == LockStep(old(K())) && (isMaster <==> slaveCid == INVALID)
    {
      assert CoInv(K(), slaveCid);
      var s := slaveCid;
      var acquired := mutex.Attempt(s);
      if acquired {
        coroutines[s] := coroutines[s].(prog := coroutines[s].prog.next, call := NoCall);
      } else {
        coroutines[s] := coroutines[s].(call := InLock);
        CoroutineYield();
      }
    }

    method CoMutexTryLock()
      requires !isMaster && 0 <= slaveCid < coroutines.Length && coroutines[slaveCid].prog.TryLock?
      modifies coroutines, mutex
      ensures K() == TryLockStep(old(K()))
    {
      var ok := mutex.Try(slaveCid);
      var co := coroutines[slaveCid];
      coroutines[slaveCid] := co.(prog := if ok then co.prog.yes else co.prog.no);
    }

    method CoMutexUnLock()
      requires !isMaster && 0 <= slaveCid < coroutines.Length && coroutines[slaveCid].prog.UnLock?
      requires mutex.lock && mutex.holdCid == slaveCid
      modifies coroutines, mutex
      ensures K() == UnLockStep(old(K()))
    {
      mutex.Release(slaveCid);
      var co := coroutines[slaveCid];
      coroutines[slaveCid] := co.(prog := co.prog.next);
    }

    /** BatchCreate with its scan of the batch pool. */
    method BatchCreate() returns (bid: int)
      requires !isMaster && m > 0 && 0 <= slaveCid < coroutines.Length && coroutines[slaveCid].prog.BatchCreate?
      requires batchs.Length == MAX_BATCH
      modifies coroutines, batchs
      ensures K() == BatchCreateStep(old(K())) && bid == IdleBatch(old(batchs[..]))
    {
      var co := coroutines[slaveCid];
      var i := 0;
      while i < MAX_BATCH
        invariant 0 <= i <= MAX_BATCH && batchs[..] == old(batchs[..]) && coroutines[..] == old(coroutines[..])
        invariant IdleBatch(batchs[..], i) == IdleBatch(batchs[..])
      {
        if batchs[i].state == Idle {
          batchs[i] := batchs[i].(state := Ready, parentCid := slaveCid);
          coroutines[slaveCid] := co.(prog := co.prog.next, relateBid := i);
          return i;
        }
        i := i + 1;
      }
      coroutines[slaveCid] := co.(prog := co.prog.none);
      return INVALID;
    }

    /** BatchAdd: the child it creates runs the task it was given. */
    method BatchAdd(bid: int) returns (added: bool)
      requires !isMaster && coroutines.Length == coroutineCount && Inv(K()) && HasOpenBatch(K())
      requires Self(K()).call == NoCall && Self(K()).prog.BatchAdd? && bid == Self(K()).relateBid
      requires |batchs[bid].childFinish| < m ==> IdleSlot(K().cos) != INVALID
      modifies this, coroutines, batchs
      ensures K() == BatchAddStep(old(K())) && added == (|old(batchs[bid]).childFinish| < m)
      ensures AddOutcome(old(K()), K())
      ensures isMaster == old(isMaster) && slaveCid == old(slaveCid)
    {
      ghost var k0 := K();
      assert !isMaster && 0 <= bid < MAX_BATCH && batchs[bid].state == Ready && batchs[bid].parentCid == slaveCid;
      var co := coroutines[slaveCid];
      added := |batchs[bid].childFinish| < m;
      if !added {
        coroutines[slaveCid] := co.(prog := co.prog.full);
      } else {
        trace := trace + [Added(co.serial, nextSerial)];
        var cid := CoroutineCreate(co.prog.child, bid);
        assert cid != INVALID by { IdleSlotSpec(old(coroutines[..]), 0); }
        batchs[bid] := batchs[bid].(childFinish := batchs[bid].childFinish[cid := false]);
        coroutines[slaveCid] := co.(prog := co.prog.added);
      }
      assert K() == BatchAddStep(k0);
      BatchAddDoes(k0, K());
    }

    /** BatchRun up to its yield. */
    method BatchRun(bid: int)
      requires !isMaster && HasOpenBatch(K()) && Self(K()).prog.BatchRun? && bid == Self(K()).relateBid
      requires batchs.Length == MAX_BATCH && Self(K()).state == Run
      modifies this, coroutines, batchs
      ensures K() == BatchRunStep(old(K())) && isMaster
    {
      assert !isMaster && 0 <= bid < MAX_BATCH && batchs[bid].parentCid == slaveCid;
      batchs[bid] := batchs[bid].(state := Run);
      var co := coroutines[slaveCid];
      coroutines[slaveCid] := co.(prog := co.prog.next, call := InBatchRun);
      CoroutineYield();
    }

    /** What BatchRun does once its yield returns. */
    method BatchRunReturn(bid: int)
      requires !isMaster && 0 <= slaveCid < coroutines.Length
      requires bid == coroutines[slaveCid].relateBid && 0 <= bid < batchs.Length
      modifies this`trace, coroutines, batchs
      ensures K() == JoinStep(old(K()))
    {
      batchs[bid] := IDLE_BATCH;
      coroutines[slaveCid] := coroutines[slaveCid].(relateBid := INVALID, call := NoCall);
      trace := trace + [Joined(coroutines[slaveCid].serial)];
    }

    method IsBatchDone(bid: int) returns (done: bool)
      requires isMaster && 0 <= bid < batchs.Length && batchs[bid].state == Run
      ensures done <==> AllDone(batchs[bid].childFinish)
    {
      var kids := batchs[bid].childFinish;
      var left: set<int> := kids.Keys;
      while left != {}
        invariant left <= kids.Keys
        invariant forall c :: c in kids && c !in left ==> kids[c]
      {
        Inhabited(left);
        var c :| c in left;
        if !kids[c] { return false; }
        left := left - {c};
      }
      return true;
    }

    /** CoroutineRun after the entry function returned. */
    method CoroutineRunReturn()
      requires !isMaster && Running(K()) && Self(K()).state == Run
      requires Self(K()).relateBid != INVALID ==> 0 <= Self(K()).relateBid < batchs.Length
      requires IsChild(K(), slaveCid) ==>
        var x := batchs[Self(K()).relateBid];
        0 <= x.parentCid < coroutines.Length && slaveCid in x.childFinish && x.state == Run
      modifies this, coroutines, batchs
      ensures K() == FinishStep(old(K())) && isMaster && slaveCid == INVALID
    {
      var cid := slaveCid;
      var co := coroutines[cid];
      coroutines[cid] := co.(state := Idle);
      isMaster, slaveCid := true, INVALID;
      notIdleCount := notIdleCount - 1;
      trace := trace + [Done(co.serial)];
      var bid := co.relateBid;
      if bid != INVALID && cid != batchs[bid].parentCid {
        assert cid in batchs[bid].childFinish;
        batchs[bid] := batchs[bid].(childFinish := batchs[bid].childFinish[cid := true]);
        var done := IsBatchDone(bid);
        if done {
          batchFinishCidList := batchFinishCidList + [batchs[bid].parentCid];
          trace := trace + [Queued(coroutines[batchs[bid].parentCid].serial)];
        }
        coroutines[cid] := coroutines[cid].(relateBid := INVALID);
      }
    }

    /** One call of the running coroutine. */
    method CoroutineStep()
      requires Valid() && Running(K()) && HasRoom(K())
      modifies this, coroutines, batchs, mutex
      ensures Valid() && old(StepSafe(K())) && K() == Step(old(K()))
    {
      StepInv(K());
      StepTrace(K());
      assert CoInv(K(), slaveCid);
      var co := coroutines[slaveCid];
      match co.call
      case InBatchRun => BatchRunReturn(co.relateBid);
      case InLock => CoMutexLock();
      case NoCall =>
        match co.prog
        case End => CoroutineRunReturn();
        case Yield(next) =>
          coroutines[slaveCid] := co.(prog := next);
          CoroutineYield();
        case Lock(_) => CoMutexLock();
        case UnLock(_) => CoMutexUnLock();
        case TryLock(_, _) => CoMutexTryLock();
        case BatchCreate(_, _) => var bid := BatchCreate();
        case BatchAdd(_, _, _) => var added := BatchAdd(co.relateBid);
        case BatchRun(_) => BatchRun(co.relateBid);
    }

    /** The stretch of a coroutine between two switches. */
    method Slice()
      requires Valid() && Running(K()) && Within(K())
      modifies this, coroutines, batchs, mutex
      ensures Valid() && K() == RunSlice(old(K())) && isMaster
    {
      ghost var k0 := K();
      while slaveCid != INVALID
        invariant Valid() && Within(K())
        invariant if Running(K()) then RunSlice(K()) == RunSlice(k0) else K() == RunSlice(k0)
        decreases if slaveCid == INVALID then 0 else 1 + TotalWork(K())
      {
        StepInv(K());
        StepWork(K());
        WithinKept(K(), Step(K()));
        CoroutineStep();
      }
    }

    /** CoroutineResume; its assertions are ResumeSafe, and it returns when the coroutine switches back. */
    method CoroutineResume(cid: int)
      requires Valid() && AtMaster(K()) && Resumable(K(), cid)
      modifies this, coroutines, batchs, mutex
      ensures Valid() && K() == ResumeSlice(old(K()), cid) && isMaster
    {
      ResumeTrace(K(), cid);
      coroutines[cid] := coroutines[cid].(state := Run);
      isMaster, slaveCid := false, cid;
      Slice();
    }

    /** The CoroutineResume call for the i-th queued parent. */
    method ResumeQueued(i: nat)
      requires Valid() && AtMaster(K()) && i == finishPos < |batchFinishCidList|
      modifies this, coroutines, batchs, mutex
      ensures Valid() && K() == ParentSlice(old(K())) && isMaster
    {
      ParentTrace(K());
      var cid := batchFinishCidList[i];
      assert ResumeSafe(K(), cid);
      coroutines[cid] := coroutines[cid].(state := Run);
      isMaster, slaveCid, finishPos := false, cid, i + 1;
      assert K() == ResumeParent(old(K()));
      Slice();
    }

    /** batch_finish_cid_list_.clear(), once every entry has been resumed. */
    method ClearFinishList()
      requires Valid() && AtMaster(K()) && finishPos >= |batchFinishCidList|
      modifies this
      ensures Valid() && K() == old(K()).(finishList := [], finishPos := 0) && isMaster
    {
      ClearInv(K());
      ClearTrace(K());
      batchFinishCidList, finishPos := [], 0;
    }

    method CoroutineResume4BatchFinish()
      requires Valid() && AtMaster(K()) && finishPos == 0
      modifies this, coroutines, batchs, mutex
      ensures Valid() && K() == FinishPass(old(K())) && isMaster
    {
      ghost var k0 := K();
      var i := 0;
      while i < |batchFinishCidList|
        invariant Valid() && AtMaster(K()) && i == finishPos
        invariant FinishPass(K()) == FinishPass(k0)
        decreases TotalWork(K())
      {
        ResumeQueued(i);
        i := i + 1;
      }
      ClearFinishList();
    }

    /** CoMutexResume: hands a free lock to the longest waiter, who runs on with it; otherwise it does nothing. */
    method CoMutexResume()
      requires Valid() && AtMaster(K())
      modifies this, coroutines, batchs, mutex
      ensures Valid() && K() == MutexPass(old(K())) && isMaster
      ensures if old(HasPick(mutex.M())) then WokeWaiter(old(K()), K()) else K() == old(K())
    {
      ghost var k0 := K();
      if HasPick(mutex.M()) {
        PickInv(K());
        PickTrace(K());
      }
      var cid := mutex.PopWaiter();
      if cid != INVALID {
        coroutines[cid] := coroutines[cid].(state := Run);
        isMaster, slaveCid := false, cid;
        assert K() == PickResume(k0);
        Slice();
      }
      assert K() == MutexPass(k0);
      MutexPassWakes(k0);
    }

    /** The body of the for loop of Run: slot i is resumed unless it is idle or waits for its batch. */
    method VisitSlot(i: nat)
      requires Valid() && AtMaster(K()) && i < coroutineCount
      modifies this, coroutines, batchs, mutex
      ensures Valid() && K() == PoolTurn(old(K()), i) && isMaster
    {
      var co := coroutines[i];
      assert CoInv(K(), i);
      if co.state == Idle || co.state == Run {
      } else if co.relateBid == INVALID {
        CoroutineResume(i);
      } else if i != batchs[co.relateBid].parentCid {
        CoroutineResume(i);
      }
    }

    /** The for loop of Run over the pool. */
    method PoolLoop()
      requires Valid() && AtMaster(K())
      modifies this, coroutines, batchs, mutex
      ensures Valid() && K() == PoolPass(old(K()), 0) && isMaster
    {
      ghost var goal := PoolPass(K(), 0);
      var i := 0;
      while i < coroutineCount
        invariant Valid() && AtMaster(K()) && 0 <= i <= coroutineCount
        invariant PoolPass(K(), i) == goal
      {
        VisitSlot(i);
        i := i + 1;
      }
    }

    /** Schedule::Run: it goes through the passes of RunAll, and ends with everything idle whenever these come to an end. */
    method RunUntilIdle()
      requires Valid() && AtMaster(K()) && finishPos == 0 && Returns(K())
      modifies this, coroutines, batchs, mutex
      ensures Valid() && K() == RunAll(old(K())) && notIdleCount == 0
      ensures forall c :: 0 <= c < coroutineCount ==> coroutines[c].state == Idle
      ensures !mutex.lock && mutex.suspendCidList == [] && batchFinishCidList == []
    {
      ghost var k0 := K();
      ReturnsUnlessStuck(K());
      while notIdleCount > 0
        invariant Valid() && AtMaster(K()) && finishPos == 0 && RunAll(K()) == RunAll(k0) && !Stuck(RunAll(K()))
        decreases TotalWork(K())
      {
        PassProgress(K());
        PoolLoop();
        CoroutineResume4BatchFinish();
        CoMutexResume();
      }
      RunEndsIdle(K());
    }
  }
}
