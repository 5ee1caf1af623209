/** The scheduler invariant, and that every step of a disciplined program keeps it without failing an assertion. */
module KernelInv {
  import opened Base
  import opened Kernel

  predicate Holds(k: Kernel, c: int) {
    k.mutex.lock && k.mutex.hold == c
  }

  /** The rest of c's program keeps the rules, given what c is inside of. */
  ghost predicate Disciplined(k: Kernel, c: int, phase: Phase, child: bool)
    requires 0 <= c < |k.cos|
  {
    Wf(k.cos[c].prog, k.m, phase, Holds(k, c), child) && (k.cos[c].call == InLock ==> k.cos[c].prog.Lock?)
  }

  ghost predicate LiveInv(k: Kernel, c: int)
    requires 0 <= c < |k.cos|
  {
    var co := k.cos[c];
    if co.relateBid == INVALID then co.call != InBatchRun && Disciplined(k, c, Closed, false)
    else
      0 <= co.relateBid < |k.batchs|
      && var x := k.batchs[co.relateBid];
         if x.parentCid != c then  // a child that has not finished
           c in x.childFinish && !x.childFinish[c] && co.call != InBatchRun && Disciplined(k, c, Closed, true)
         else if x.state == Ready then  // filling its batch, so running
           c == k.slave && co.call == NoCall && Disciplined(k, c, if x.childFinish == map[] then Empty else Filled, false)
         else  // inside BatchRun
           x.state == Run && co.call == InBatchRun && Disciplined(k, c, Closed, false)
  }

  ghost predicate CoInv(k: Kernel, c: int)
    requires 0 <= c < |k.cos|
  {
    var co := k.cos[c];
    && (co.state == Run <==> c == k.slave)
    && (co.state == Ready ==> co.call == NoCall)
    && (co.state == Idle ==> co.relateBid == INVALID && co.call == NoCall)
    && (co.state != Idle ==> LiveInv(k, c))
  }

  ghost predicate ChildOf(k: Kernel, c: int, b: int)
    requires 0 <= b < |k.batchs| && c in k.batchs[b].childFinish
  {
    var x := k.batchs[b];
    0 <= c < |k.cos| && c != x.parentCid
    && (!x.childFinish[c] ==> k.cos[c].relateBid == b && k.cos[c].state != Idle)
  }

  /** Parents queued for resumption and not yet resumed. */
  function Pending(k: Kernel): seq<int> {
    if k.finishPos <= |k.finishList| then k.finishList[k.finishPos..] else []
  }

  ghost predicate BatchInv(k: Kernel, b: int)
    requires 0 <= b < |k.batchs|
  {
    var x := k.batchs[b];
    if x.state == Idle then x == IDLE_BATCH
    else
      && x.state != Suspend
      && 0 <= x.parentCid < |k.cos| && k.cos[x.parentCid].relateBid == b && k.cos[x.parentCid].state != Idle
      && |x.childFinish| <= k.m
      && (x.state == Run ==> x.childFinish != map[])
      && (x.state == Ready ==> forall c :: c in x.childFinish ==> !x.childFinish[c])
      && (forall c :: c in x.childFinish ==> ChildOf(k, c, b))
      && (x.state == Run && AllDone(x.childFinish) ==> x.parentCid == k.slave || x.parentCid in Pending(k))
      && (x.state == Run && x.parentCid == k.slave ==> AllDone(x.childFinish))
  }

  ghost predicate FinishInv(k: Kernel) {
    && k.finishPos <= |k.finishList|
    && NoDup(Pending(k))
    && forall p :: p in Pending(k) ==>
         0 <= p < |k.cos| && k.cos[p].state == Suspend && IsParent(k, p)
         && k.batchs[k.cos[p].relateBid].state == Run && AllDone(k.batchs[k.cos[p].relateBid].childFinish)
  }

  /** The queue holds the blocked coroutines once each and otherwise at most the holder. */
  ghost predicate MutexInv(k: Kernel) {
    && NoDup(k.mutex.queue)
    && (k.mutex.lock ==> 0 <= k.mutex.hold < |k.cos| && k.cos[k.mutex.hold].state != Idle)
    && (!k.mutex.lock ==> k.mutex.hold == INVALID)
    && (forall c :: c in k.mutex.queue ==>
          0 <= c < |k.cos| && k.cos[c].state != Idle && (k.cos[c].call == InLock || Holds(k, c)))
    && (forall c :: 0 <= c < |k.cos| && k.cos[c].call == InLock ==>
          c in k.mutex.queue || (c == k.slave && !k.mutex.lock))
  }

  predicate IsTop(k: Kernel, c: int) {
    0 <= c < |k.cos| && k.cos[c].state != Idle && !IsChild(k, c)
  }

  function Tops(k: Kernel): set<int> {
    set c | 0 <= c < |k.cos| && IsTop(k, c)
  }

  /** The pool sizes the constructor allows, and the live count. */
  ghost predicate SizeInv(k: Kernel) {
    && k.n > 0 && |k.cos| == (k.m + 1) * k.n && (k.m + 1) * k.n <= MAX_COROUTINE && |k.batchs| == MAX_BATCH
    && k.notIdle == CountLive(k.cos)
    && (k.slave == INVALID || 0 <= k.slave < |k.cos|)
  }

  /** At most as many top-level coroutines are alive as the constructor was asked for. */
  ghost predicate Within(k: Kernel) { |Tops(k)| <= k.n }

  ghost predicate Inv(k: Kernel) {
    && SizeInv(k)
    && (forall c :: 0 <= c < |k.cos| ==> CoInv(k, c))
    && (forall b :: 0 <= b < |k.batchs| ==> BatchInv(k, b))
    && FinishInv(k)
    && MutexInv(k)
  }

  // ---------- Sums over the pool ----------

  lemma {:induction false} SumWorkUpdate(s: seq<Coroutine>, i: nat, co: Coroutine)
    requires i < |s|
    ensures SumWork(s[i := co]) == SumWork(s) - CoWork(s[i]) + CoWork(co)
    ensures SumWork(s) >= CoWork(s[i])
  {
    if i > 0 {
      assert s[i := co][1..] == s[1..][i - 1 := co];
      SumWorkUpdate(s[1..], i - 1, co);
    } else {
      assert s[i := co][1..] == s[1..];
    }
  }

  lemma {:induction false} CountLiveUpdate(s: seq<Coroutine>, i: nat, co: Coroutine)
    requires i < |s|
    ensures CountLive(s[i := co]) ==
            CountLive(s) - (if s[i].state == Idle then 0 else 1) + (if co.state == Idle then 0 else 1)
  {
    if i > 0 {
      assert s[i := co][1..] == s[1..][i - 1 := co];
      CountLiveUpdate(s[1..], i - 1, co);
    } else {
      assert s[i := co][1..] == s[1..];
    }
  }

  lemma {:induction false} CountLiveZero(s: seq<Coroutine>)
    ensures CountLive(s) == 0 <==> forall i :: 0 <= i < |s| ==> s[i].state == Idle
  {
    if s == [] {
    } else {
      CountLiveZero(s[1..]);
      assert forall i :: 0 < i < |s| ==> s[i] == s[1..][i - 1];
    }
  }

  lemma {:induction false} IdleSlotSpec(cos: seq<Coroutine>, i: nat)
    requires i <= |cos|
    ensures var r := IdleSlot(cos, i);
            (r == INVALID && forall j :: i <= j < |cos| ==> cos[j].state != Idle)
            || (i <= r < |cos| && cos[r].state == Idle && forall j :: i <= j < r ==> cos[j].state != Idle)
    decreases |cos| - i
  {
    if i < |cos| && cos[i].state != Idle { IdleSlotSpec(cos, i + 1); }
  }

  lemma {:induction false} IdleBatchSpec(batchs: seq<Batch>, i: nat)
    requires i <= |batchs|
    ensures var r := IdleBatch(batchs, i);
            (r == INVALID && forall j :: i <= j < |batchs| ==> batchs[j].state != Idle)
            || (i <= r < |batchs| && batchs[r].state == Idle && forall j :: i <= j < r ==> batchs[j].state != Idle)
    decreases |batchs| - i
  {
    if i < |batchs| && batchs[i].state != Idle { IdleBatchSpec(batchs, i + 1); }
  }

  // ---------- Each step keeps the invariant ----------

  /** r differs from k only in what s itself does: its state, program and the mutex as far as s is concerned. */
  ghost predicate Quiet(k: Kernel, r: Kernel, s: int) {
    && 0 <= s < |k.cos| && |r.cos| == |k.cos|
    && r == k.(cos := k.cos[s := r.cos[s]], slave := r.slave, mutex := r.mutex)
    && r.cos[s].relateBid == k.cos[s].relateBid && r.cos[s].serial == k.cos[s].serial && k.cos[s].state != Idle && r.cos[s].state != Idle
    && (k.slave == INVALID || k.slave == s) && (r.slave == INVALID || r.slave == s)
    && (forall c :: c != s ==> (Holds(r, c) <==> Holds(k, c)))
    && !(IsParent(k, s) && k.batchs[k.cos[s].relateBid].state == Run)
  }

  lemma QuietCo(k: Kernel, r: Kernel, s: int, c: int)
    requires Quiet(k, r, s) && 0 <= c < |k.cos| && c != s && CoInv(k, c)
    ensures CoInv(r, c)
  {}

  lemma QuietBatch(k: Kernel, r: Kernel, s: int, b: int)
    requires Quiet(k, r, s) && 0 <= b < |k.batchs| && BatchInv(k, b)
    ensures BatchInv(r, b)
  {}

  lemma QuietSize(k: Kernel, r: Kernel, s: int)
    requires Quiet(k, r, s) && SizeInv(k)
    ensures SizeInv(r) && Tops(r) == Tops(k)
  {
    CountLiveUpdate(k.cos, s, r.cos[s]);
    assert forall c :: IsTop(r, c) <==> IsTop(k, c);
    assert Tops(r) == Tops(k);
  }

  lemma QuietFinish(k: Kernel, r: Kernel, s: int)
    requires Quiet(k, r, s) && FinishInv(k)
    ensures FinishInv(r)
  {}

  lemma QuietInv(k: Kernel, r: Kernel, s: int)
    requires Inv(k) && Quiet(k, r, s) && CoInv(r, s) && MutexInv(r)
    ensures Inv(r) && Tops(r) == Tops(k)
  {
    forall c | 0 <= c < |r.cos| ensures CoInv(r, c) {
      if c != s { QuietCo(k, r, s, c); }
    }
    forall b | 0 <= b < |r.batchs| ensures BatchInv(r, b) { QuietBatch(k, r, s, b); }
    QuietSize(k, r, s);
    QuietFinish(k, r, s);
  }

  lemma ResumeInv(k: Kernel, c: int)
    requires Inv(k) && ResumeSafe(k, c) && !IsParent(k, c)
    ensures Inv(Resume(k, c)) && Tops(Resume(k, c)) == Tops(k)
  {
    var r := Resume(k, c);
    assert CoInv(k, c);
    assert MutexInv(r);
    QuietInv(k, r, c);
  }

  lemma YieldInv(k: Kernel)
    requires Inv(k) && Running(k) && Self(k).call == NoCall && Self(k).prog.Yield?
    ensures StepSafe(k) && Quiet(k, Step(k), k.slave) && Inv(Step(k)) && Tops(Step(k)) == Tops(k) && Step(k).slave == INVALID
  {
    var r := Step(k);
    assert CoInv(k, k.slave);
    QuietInv(k, r, k.slave);
  }

  lemma AcquireMutex(k: Kernel)
    requires MutexInv(k) && Running(k) && Self(k).state != Idle && Self(k).prog.Lock? && !k.mutex.lock
    ensures MutexInv(LockStep(k))
  {}

  lemma QueueMutex(k: Kernel)
    requires MutexInv(k) && Running(k) && Self(k).state != Idle && Self(k).prog.Lock? && Self(k).call != InBatchRun
    requires k.mutex.lock && k.mutex.hold != k.slave
    ensures MutexInv(LockStep(k))
  {}

  lemma LockQuiet(k: Kernel)
    requires Running(k) && Self(k).prog.Lock? && Self(k).call != InBatchRun && CoInv(k, k.slave)
    ensures StepSafe(k) && Quiet(k, LockStep(k), k.slave) && CoInv(LockStep(k), k.slave)
  {}

  lemma LockInv(k: Kernel)
    requires Inv(k) && Running(k) && Self(k).prog.Lock? && Self(k).call != InBatchRun
    ensures StepSafe(k) && Quiet(k, Step(k), k.slave) && Inv(Step(k)) && Tops(Step(k)) == Tops(k)
  {
    assert CoInv(k, k.slave);
    LockQuiet(k);
    if k.mutex.lock { QueueMutex(k); } else { AcquireMutex(k); }
    QuietInv(k, LockStep(k), k.slave);
  }

  lemma UnLockInv(k: Kernel)
    requires Inv(k) && Running(k) && Self(k).call == NoCall && Self(k).prog.UnLock?
    ensures StepSafe(k) && Quiet(k, Step(k), k.slave) && Inv(Step(k)) && Tops(Step(k)) == Tops(k)
  {
    assert CoInv(k, k.slave);
    var r := Step(k);
    RemoveFirstNoDup(k.mutex.queue, k.slave);
    assert MutexInv(r);
    QuietInv(k, r, k.slave);
  }

  lemma TryLockInv(k: Kernel)
    requires Inv(k) && Running(k) && Self(k).call == NoCall && Self(k).prog.TryLock?
    ensures StepSafe(k) && Quiet(k, Step(k), k.slave) && Inv(Step(k)) && Tops(Step(k)) == Tops(k)
  {
    assert CoInv(k, k.slave);
    var r := Step(k);
    assert MutexInv(r);
    QuietInv(k, r, k.slave);
  }
}
