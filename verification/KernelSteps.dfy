/** The batch calls, the end of a coroutine and the resumption of parents keep the scheduler invariant. */
module KernelSteps {
  import opened Base
  import opened Kernel
  import opened KernelInv
  import opened KernelCapacity

  // ---------- BatchCreate ----------

  /** s opens the idle batch b. */
  ghost predicate Opens(k: Kernel, r: Kernel, s: int, b: int) {
    && 0 <= s < |k.cos| && 0 <= b < |k.batchs| && k.slave == s
    && k.batchs[b] == IDLE_BATCH && k.cos[s].state == Run && k.cos[s].relateBid == INVALID && k.cos[s].call == NoCall
    && |r.cos| == |k.cos|
    && r.cos == k.cos[s := k.cos[s].(prog := r.cos[s].prog, relateBid := b)]
    && r.batchs == k.batchs[b := Batch(Ready, s, map[])]
    && r == k.(cos := r.cos, batchs := r.batchs)
    && Wf(r.cos[s].prog, k.m, Empty, Holds(k, s), false)
  }

  lemma OpensCo(k: Kernel, r: Kernel, s: int, b: int, c: int)
    requires Opens(k, r, s, b) && 0 <= c < |k.cos| && CoInv(k, c)
    ensures CoInv(r, c)
  {}

  lemma OpensBatch(k: Kernel, r: Kernel, s: int, b: int, x: int)
    requires Opens(k, r, s, b) && 0 <= x < |k.batchs| && BatchInv(k, x)
    ensures BatchInv(r, x)
  {}

  lemma OpensSize(k: Kernel, r: Kernel, s: int, b: int)
    requires Opens(k, r, s, b) && SizeInv(k)
    requires forall c :: 0 <= c < |k.cos| && k.cos[c].state != Idle ==> k.cos[c].relateBid != b
    ensures SizeInv(r) && Tops(r) == Tops(k)
  {
    CountLiveUpdate(k.cos, s, r.cos[s]);
    assert forall c :: IsTop(r, c) <==> IsTop(k, c);
    assert Tops(r) == Tops(k);
  }

  lemma OpensFinish(k: Kernel, r: Kernel, s: int, b: int)
    requires Opens(k, r, s, b) && FinishInv(k)
    ensures FinishInv(r)
  {}

  lemma OpensMutex(k: Kernel, r: Kernel, s: int, b: int)
    requires Opens(k, r, s, b) && MutexInv(k)
    ensures MutexInv(r)
  {}

  lemma IdleUnrelated(k: Kernel, b: int)
    requires Inv(k) && 0 <= b < |k.batchs| && k.batchs[b].state == Idle
    ensures k.batchs[b] == IDLE_BATCH
    ensures forall c :: 0 <= c < |k.cos| && k.cos[c].state != Idle ==> k.cos[c].relateBid != b
  {
    assert BatchInv(k, b);
    forall c | 0 <= c < |k.cos| && k.cos[c].state != Idle ensures k.cos[c].relateBid != b { assert CoInv(k, c); }
  }

  lemma BatchCreateOpens(k: Kernel)
    requires Inv(k) && Running(k) && Self(k).call == NoCall && Self(k).prog.BatchCreate? && IdleBatch(k.batchs) != INVALID
    ensures StepSafe(k) && Opens(k, Step(k), k.slave, IdleBatch(k.batchs))
  {
    assert CoInv(k, k.slave);
    IdleBatchSpec(k.batchs, 0);
    IdleUnrelated(k, IdleBatch(k.batchs));
  }

  lemma BatchCreateNone(k: Kernel)
    requires Inv(k) && Running(k) && Self(k).call == NoCall && Self(k).prog.BatchCreate? && IdleBatch(k.batchs) == INVALID
    ensures StepSafe(k) && Quiet(k, Step(k), k.slave) && Inv(Step(k)) && Tops(Step(k)) == Tops(k)
  {
    assert CoInv(k, k.slave);
    assert MutexInv(Step(k));
    QuietInv(k, Step(k), k.slave);
  }

  lemma BatchCreateInv(k: Kernel)
    requires Inv(k) && Running(k) && Self(k).call == NoCall && Self(k).prog.BatchCreate?
    ensures StepSafe(k) && Inv(Step(k)) && Tops(Step(k)) == Tops(k)
    ensures HasOpenBatch(Step(k)) <==> IdleBatch(k.batchs) != INVALID
    ensures Within(k) ==> IdleBatch(k.batchs) != INVALID
  {
    assert CoInv(k, k.slave);
    if Within(k) { BatchAvailable(k); }
    if IdleBatch(k.batchs) == INVALID {
      BatchCreateNone(k);
    } else {
      BatchCreateOpens(k);
      var s, b, r := k.slave, IdleBatch(k.batchs), Step(k);
      IdleUnrelated(k, b);
      forall c | 0 <= c < |r.cos| ensures CoInv(r, c) { OpensCo(k, r, s, b, c); }
      forall x | 0 <= x < |r.batchs| ensures BatchInv(r, x) { OpensBatch(k, r, s, b, x); }
      OpensSize(k, r, s, b);
      OpensFinish(k, r, s, b);
      OpensMutex(k, r, s, b);
    }
  }

  // ---------- BatchAdd ----------

  /** s puts a new child into the idle slot and into its open batch b. */
  ghost predicate Adds(k: Kernel, r: Kernel, s: int, slot: int, b: int) {
    && 0 <= s < |k.cos| && 0 <= slot < |k.cos| && s != slot && 0 <= b < |k.batchs| && k.slave == s
    && k.cos[slot].state == Idle && k.cos[slot].relateBid == INVALID && !Holds(k, slot)
    && k.cos[s].state == Run && k.cos[s].relateBid == b && k.cos[s].call == NoCall
    && k.batchs[b].state == Ready && k.batchs[b].parentCid == s && |k.batchs[b].childFinish| < k.m
    && slot !in k.batchs[b].childFinish
    && |r.cos| == |k.cos|
    && r.cos == k.cos[slot := Coroutine(Ready, b, r.cos[slot].prog, NoCall, k.nextSerial)][s := k.cos[s].(prog := r.cos[s].prog)]
    && r.batchs == k.batchs[b := k.batchs[b].(childFinish := k.batchs[b].childFinish[slot := false])]
    && r == k.(cos := r.cos, batchs := r.batchs, notIdle := k.notIdle + 1, nextSerial := k.nextSerial + 1, trace := r.trace)
    && Wf(r.cos[s].prog, k.m, Filled, Holds(k, s), false) && Wf(r.cos[slot].prog, k.m, Closed, false, true)
  }

  lemma AddsCo(k: Kernel, r: Kernel, s: int, slot: int, b: int, c: int)
    requires Adds(k, r, s, slot, b) && 0 <= c < |k.cos| && CoInv(k, c)
    ensures CoInv(r, c)
  {}

  lemma AddsOwnBatch(k: Kernel, r: Kernel, s: int, slot: int, b: int)
    requires Adds(k, r, s, slot, b) && BatchInv(k, b)
    ensures BatchInv(r, b)
  {}

  lemma AddsOtherBatch(k: Kernel, r: Kernel, s: int, slot: int, b: int, x: int)
    requires Adds(k, r, s, slot, b) && 0 <= x < |k.batchs| && x != b && BatchInv(k, x)
    ensures BatchInv(r, x)
  {}

  lemma AddsTops(k: Kernel, r: Kernel, s: int, slot: int, b: int)
    requires Adds(k, r, s, slot, b)
    ensures Tops(r) == Tops(k)
  {}

  lemma AddsSize(k: Kernel, r: Kernel, s: int, slot: int, b: int)
    requires Adds(k, r, s, slot, b) && SizeInv(k)
    ensures SizeInv(r) && Tops(r) == Tops(k)
  {
    var mid := k.cos[s := r.cos[s]];
    CountLiveUpdate(k.cos, s, r.cos[s]);
    CountLiveUpdate(mid, slot, r.cos[slot]);
    assert r.cos == mid[slot := r.cos[slot]];
    AddsTops(k, r, s, slot, b);
  }

  lemma AddsFinish(k: Kernel, r: Kernel, s: int, slot: int, b: int)
    requires Adds(k, r, s, slot, b) && FinishInv(k)
    ensures FinishInv(r)
  {}

  lemma AddsMutex(k: Kernel, r: Kernel, s: int, slot: int, b: int)
    requires Adds(k, r, s, slot, b) && MutexInv(k)
    ensures MutexInv(r)
  {}

  /** The next step does not ask for a child while every slot is taken. */
  predicate HasRoom(k: Kernel) {
    (HasOpenBatch(k) && Self(k).call == NoCall && Self(k).prog.BatchAdd? && |k.batchs[Self(k).relateBid].childFinish| < k.m)
    ==> IdleSlot(k.cos) != INVALID
  }

  lemma AddReady(k: Kernel)
    requires Inv(k) && Running(k) && Self(k).call == NoCall && Self(k).prog.BatchAdd?
    ensures HasOpenBatch(k)
    ensures |k.batchs[Self(k).relateBid].childFinish| < k.m && IdleSlot(k.cos) != INVALID ==>
              StepSafe(k) && Adds(k, BatchAddStep(k), k.slave, IdleSlot(k.cos), Self(k).relateBid)
  {
    assert CoInv(k, k.slave);
    var b := Self(k).relateBid;
    if |k.batchs[b].childFinish| < k.m && IdleSlot(k.cos) != INVALID {
      IdleSlotSpec(k.cos, 0);
      var slot := IdleSlot(k.cos);
      assert CoInv(k, slot) && BatchInv(k, b);
      assert slot in k.batchs[b].childFinish ==> ChildOf(k, slot, b);
    }
  }

  lemma AddFull(k: Kernel)
    requires Inv(k) && Running(k) && Self(k).call == NoCall && Self(k).prog.BatchAdd? && HasOpenBatch(k)
    requires |k.batchs[Self(k).relateBid].childFinish| >= k.m
    ensures StepSafe(k) && Quiet(k, Step(k), k.slave) && Inv(Step(k)) && Tops(Step(k)) == Tops(k)
  {
    assert CoInv(k, k.slave);
    var r := Step(k);
    assert MutexInv(r);
    QuietInv(k, r, k.slave);
  }

  lemma BatchAddInv(k: Kernel)
    requires Inv(k) && Running(k) && Self(k).call == NoCall && Self(k).prog.BatchAdd?
    ensures StepSafe(k) <==> HasRoom(k)
    ensures HasRoom(k) ==> Inv(Step(k)) && Tops(Step(k)) == Tops(k)
    ensures Within(k) ==> HasRoom(k)
  {
    AddReady(k);
    var s, slot, b := k.slave, IdleSlot(k.cos), Self(k).relateBid;
    if |k.batchs[b].childFinish| >= k.m {
      AddFull(k);
      return;
    }
    if Within(k) { SlotAvailable(k); }
    if HasRoom(k) {
      var r := BatchAddStep(k);
      forall c | 0 <= c < |r.cos| ensures CoInv(r, c) { AddsCo(k, r, s, slot, b, c); }
      forall x | 0 <= x < |r.batchs| ensures BatchInv(r, x) {
        if x == b { AddsOwnBatch(k, r, s, slot, b); } else { AddsOtherBatch(k, r, s, slot, b, x); }
      }
      AddsSize(k, r, s, slot, b);
      AddsFinish(k, r, s, slot, b);
      AddsMutex(k, r, s, slot, b);
    }
  }

  // ---------- BatchRun and the resumption of the parent ----------

  /** s yields inside BatchRun of its batch b. */
  ghost predicate Blocks(k: Kernel, r: Kernel, s: int, b: int) {
    && 0 <= s < |k.cos| && 0 <= b < |k.batchs| && k.slave == s && |r.cos| == |k.cos|
    && k.cos[s].state == Run && k.cos[s].relateBid == b && k.cos[s].call == NoCall
    && k.batchs[b].state == Ready && k.batchs[b].parentCid == s && k.batchs[b].childFinish != map[]
    && r.cos == k.cos[s := k.cos[s].(prog := r.cos[s].prog, state := Suspend, call := InBatchRun)]
    && r.batchs == k.batchs[b := k.batchs[b].(state := Run)]
    && r == k.(cos := r.cos, batchs := r.batchs, slave := INVALID)
    && Wf(r.cos[s].prog, k.m, Closed, Holds(k, s), false)
  }

  lemma BlocksCo(k: Kernel, r: Kernel, s: int, b: int, c: int)
    requires Blocks(k, r, s, b) && 0 <= c < |k.cos| && CoInv(k, c)
    ensures CoInv(r, c)
  {}

  lemma NonEmptyMap(m: map<int, bool>)
    requires m != map[]
    ensures exists c :: c in m
  {
    assert (forall c :: c !in m) ==> m == map[];
  }

  lemma BlocksBatch(k: Kernel, r: Kernel, s: int, b: int, x: int)
    requires Blocks(k, r, s, b) && 0 <= x < |k.batchs| && BatchInv(k, x)
    ensures BatchInv(r, x)
  {
    assert Pending(r) == Pending(k);
    if r.batchs[x].state != Idle {
      forall c | c in r.batchs[x].childFinish ensures ChildOf(r, c, x) { assert ChildOf(k, c, x); }
    }
    if x == b {
      NonEmptyMap(k.batchs[b].childFinish);
    }
  }

  lemma BlocksSize(k: Kernel, r: Kernel, s: int, b: int)
    requires Blocks(k, r, s, b) && SizeInv(k)
    ensures SizeInv(r) && Tops(r) == Tops(k)
  {
    CountLiveUpdate(k.cos, s, r.cos[s]);
    assert forall c :: IsTop(r, c) <==> IsTop(k, c);
    assert Tops(r) == Tops(k);
  }

  lemma BlocksRest(k: Kernel, r: Kernel, s: int, b: int)
    requires Blocks(k, r, s, b) && FinishInv(k) && MutexInv(k)
    ensures FinishInv(r) && MutexInv(r)
  {}

  lemma BatchRunInv(k: Kernel)
    requires Inv(k) && Running(k) && Self(k).call == NoCall && Self(k).prog.BatchRun?
    ensures StepSafe(k) && Inv(Step(k)) && Tops(Step(k)) == Tops(k) && Step(k).slave == INVALID
    ensures IsParent(Step(k), k.slave) && Step(k).cos[k.slave].state == Suspend
  {
    assert CoInv(k, k.slave);
    assert HasOpenBatch(k);
    var s, b, r := k.slave, Self(k).relateBid, BatchRunStep(k);
    forall c | 0 <= c < |r.cos| ensures CoInv(r, c) { BlocksCo(k, r, s, b, c); }
    forall x | 0 <= x < |r.batchs| ensures BatchInv(r, x) { BlocksBatch(k, r, s, b, x); }
    BlocksSize(k, r, s, b);
    BlocksRest(k, r, s, b);
  }

  /** The next queued parent p, waiting on b, is switched in. */
  ghost predicate Wakes(k: Kernel, r: Kernel, p: int, b: int) {
    && 0 <= p < |k.cos| && 0 <= b < |k.batchs| && k.slave == INVALID
    && k.cos[p].state == Suspend && k.cos[p].relateBid == b
    && k.batchs[b].parentCid == p && k.batchs[b].state == Run && AllDone(k.batchs[b].childFinish)
    && k.finishPos < |k.finishList| && k.finishList[k.finishPos] == p
    && r == k.(cos := k.cos[p := k.cos[p].(state := Run)], slave := p, finishPos := k.finishPos + 1)
  }

  lemma WakesCo(k: Kernel, r: Kernel, p: int, b: int, c: int)
    requires Wakes(k, r, p, b) && 0 <= c < |k.cos| && CoInv(k, c)
    ensures CoInv(r, c)
  {}

  lemma WakesPending(k: Kernel, r: Kernel, p: int, b: int)
    requires Wakes(k, r, p, b)
    ensures Pending(k) == [p] + Pending(r)
    ensures forall q :: q in Pending(k) <==> q == p || q in Pending(r)
  {}

  lemma WakesBatch(k: Kernel, r: Kernel, p: int, b: int, x: int)
    requires Wakes(k, r, p, b) && 0 <= x < |k.batchs| && BatchInv(k, x)
    ensures BatchInv(r, x)
  {}

  lemma WakesSize(k: Kernel, r: Kernel, p: int, b: int)
    requires Wakes(k, r, p, b) && SizeInv(k)
    ensures SizeInv(r) && Tops(r) == Tops(k)
  {
    CountLiveUpdate(k.cos, p, r.cos[p]);
    assert forall c :: IsTop(r, c) <==> IsTop(k, c);
    assert Tops(r) == Tops(k);
  }

  ghost predicate Waiting(k: Kernel, p: int) {
    0 <= p < |k.cos| && k.cos[p].state == Suspend && IsParent(k, p)
    && k.batchs[k.cos[p].relateBid].state == Run && AllDone(k.batchs[k.cos[p].relateBid].childFinish)
  }

  lemma NoDupTail(p: int, z: seq<int>)
    requires NoDup([p] + z)
    ensures NoDup(z) && p !in z
  {
    var a := [p] + z;
    assert a[0] == p && forall i :: 0 <= i < |z| ==> z[i] == a[i + 1];
  }

  lemma WakesFinish(k: Kernel, r: Kernel, p: int, b: int)
    requires Wakes(k, r, p, b) && FinishInv(k)
    ensures FinishInv(r)
  {
    WakesPending(k, r, p, b);
    NoDupTail(p, Pending(r));
    forall q | q in Pending(r) ensures Waiting(r, q) { assert q in Pending(k) && Waiting(k, q); }
  }

  lemma WakesMutex(k: Kernel, r: Kernel, p: int, b: int)
    requires Wakes(k, r, p, b) && MutexInv(k) && k.cos[p].call == InBatchRun
    ensures MutexInv(r)
  {}

  /** The assertion in CoroutineResume holds for every queued parent, and resuming it keeps the invariant. */
  lemma ResumeParentInv(k: Kernel)
    requires Inv(k) && k.slave == INVALID && k.finishPos < |k.finishList|
    ensures ResumeSafe(k, k.finishList[k.finishPos])
    ensures Inv(ResumeParent(k)) && Tops(ResumeParent(k)) == Tops(k) && Self(ResumeParent(k)).call == InBatchRun
  {
    var p := k.finishList[k.finishPos];
    assert Pending(k)[0] == p;
    assert p in Pending(k);
    assert CoInv(k, p);
    var b, r := k.cos[p].relateBid, ResumeParent(k);
    forall c | 0 <= c < |r.cos| ensures CoInv(r, c) { WakesCo(k, r, p, b, c); }
    forall x | 0 <= x < |r.batchs| ensures BatchInv(r, x) { WakesBatch(k, r, p, b, x); }
    WakesSize(k, r, p, b);
    WakesFinish(k, r, p, b);
    WakesMutex(k, r, p, b);
  }

  /** s leaves BatchRun and gives its batch b back. */
  ghost predicate Joins(k: Kernel, r: Kernel, s: int, b: int) {
    && 0 <= s < |k.cos| && 0 <= b < |k.batchs| && k.slave == s
    && k.cos[s].state == Run && k.cos[s].relateBid == b && k.cos[s].call == InBatchRun
    && k.batchs[b].parentCid == s && AllDone(k.batchs[b].childFinish)
    && r == k.(cos := k.cos[s := k.cos[s].(relateBid := INVALID, call := NoCall)],
               batchs := k.batchs[b := IDLE_BATCH], trace := r.trace)
  }

  lemma JoinsCo(k: Kernel, r: Kernel, s: int, b: int, c: int)
    requires Joins(k, r, s, b) && 0 <= c < |k.cos| && CoInv(k, c) && CoInv(k, s)
    ensures CoInv(r, c)
  {}

  lemma JoinsBatch(k: Kernel, r: Kernel, s: int, b: int, x: int)
    requires Joins(k, r, s, b) && 0 <= x < |k.batchs| && BatchInv(k, x) && BatchInv(k, b)
    ensures BatchInv(r, x)
  {}

  lemma JoinsSize(k: Kernel, r: Kernel, s: int, b: int)
    requires Joins(k, r, s, b) && SizeInv(k)
    requires forall c :: 0 <= c < |k.cos| && c != s && k.cos[c].state != Idle ==> k.cos[c].relateBid != b
    ensures SizeInv(r) && Tops(r) == Tops(k)
  {
    CountLiveUpdate(k.cos, s, r.cos[s]);
    assert forall c :: IsTop(r, c) <==> IsTop(k, c);
    assert Tops(r) == Tops(k);
  }

  lemma JoinsRest(k: Kernel, r: Kernel, s: int, b: int)
    requires Joins(k, r, s, b) && FinishInv(k) && MutexInv(k)
    ensures FinishInv(r) && MutexInv(r)
  {}

  lemma JoinReady(k: Kernel)
    requires Inv(k) && Running(k) && Self(k).call == InBatchRun
    ensures StepSafe(k) && Joins(k, Step(k), k.slave, Self(k).relateBid)
    ensures forall c :: 0 <= c < |k.cos| && c != k.slave && k.cos[c].state != Idle ==> k.cos[c].relateBid != Self(k).relateBid
  {
    var s, b := k.slave, Self(k).relateBid;
    assert CoInv(k, s);
    assert BatchInv(k, b);
    forall c | 0 <= c < |k.cos| && c != s && k.cos[c].state != Idle ensures k.cos[c].relateBid != b { assert CoInv(k, c); }
  }

  /** BatchRun returns only with every child finished, and leaves its batch idle. */
  lemma JoinInv(k: Kernel)
    requires Inv(k) && Running(k) && Self(k).call == InBatchRun
    ensures StepSafe(k) && Inv(Step(k)) && Tops(Step(k)) == Tops(k)
    ensures var b := Self(k).relateBid;
            AllDone(k.batchs[b].childFinish) && Step(k).batchs[b] == IDLE_BATCH && Self(Step(k)).relateBid == INVALID
  {
    JoinReady(k);
    assert BatchInv(k, Self(k).relateBid);
    var s, b, r := k.slave, Self(k).relateBid, Step(k);
    forall c | 0 <= c < |r.cos| ensures CoInv(r, c) { JoinsCo(k, r, s, b, c); }
    forall x | 0 <= x < |r.batchs| ensures BatchInv(r, x) { JoinsBatch(k, r, s, b, x); }
    JoinsSize(k, r, s, b);
    JoinsRest(k, r, s, b);
  }

  // ---------- The end of a coroutine ----------

  /** s ends; its slot becomes idle. b is the batch it is a child of, or INVALID. */
  ghost predicate Ends(k: Kernel, r: Kernel, s: int, b: int) {
    && 0 <= s < |k.cos| && k.slave == s && k.cos[s].state == Run && k.cos[s].call == NoCall && !Holds(k, s)
    && k.cos[s].relateBid == b && |r.cos| == |k.cos| && |r.batchs| == |k.batchs|
    && r.cos == k.cos[s := k.cos[s].(state := Idle, relateBid := INVALID)]
    && r == k.(cos := r.cos, batchs := r.batchs, finishList := r.finishList, slave := INVALID,
               notIdle := k.notIdle - 1, trace := r.trace)
    && if b == INVALID then r.batchs == k.batchs && r.finishList == k.finishList
       else
         && 0 <= b < |k.batchs| && k.batchs[b].parentCid != s && k.batchs[b].state == Run && s in k.batchs[b].childFinish
         && r.batchs == k.batchs[b := k.batchs[b].(childFinish := k.batchs[b].childFinish[s := true])]
         && r.finishList == if AllDone(r.batchs[b].childFinish) then k.finishList + [k.batchs[b].parentCid] else k.finishList
  }

  lemma EndsCo(k: Kernel, r: Kernel, s: int, b: int, c: int)
    requires Ends(k, r, s, b) && 0 <= c < |k.cos| && CoInv(k, c)
    ensures CoInv(r, c)
  {}

  lemma EndsBatch(k: Kernel, r: Kernel, s: int, b: int, x: int)
    requires Ends(k, r, s, b) && 0 <= x < |k.batchs| && BatchInv(k, x) && k.finishPos <= |k.finishList|
    ensures BatchInv(r, x)
  {
    assert Pending(r) == Pending(k) + r.finishList[|k.finishList|..];
    if r.batchs[x].state != Idle {
      assert k.batchs[x].parentCid != s;
      if x == b { assert r.batchs[b].childFinish.Keys == k.batchs[b].childFinish.Keys; }
      forall c | c in r.batchs[x].childFinish ensures ChildOf(r, c, x) { assert ChildOf(k, c, x); }
    }
  }

  lemma EndsSize(k: Kernel, r: Kernel, s: int, b: int)
    requires Ends(k, r, s, b) && SizeInv(k)
    ensures SizeInv(r) && Tops(r) <= Tops(k)
  {
    CountLiveUpdate(k.cos, s, r.cos[s]);
    assert forall c :: IsTop(r, c) ==> IsTop(k, c);
  }

  lemma EndsMutex(k: Kernel, r: Kernel, s: int, b: int)
    requires Ends(k, r, s, b) && MutexInv(k)
    ensures MutexInv(r)
  {}

  lemma EndsWaiting(k: Kernel, r: Kernel, s: int, b: int, p: int)
    requires Ends(k, r, s, b) && Waiting(k, p)
    requires b != INVALID ==> !k.batchs[b].childFinish[s] && BatchInv(k, b)
    ensures Waiting(r, p) && (b != INVALID ==> p != k.batchs[b].parentCid)
  {}

  lemma EndsFinish(k: Kernel, r: Kernel, s: int, b: int)
    requires Ends(k, r, s, b) && FinishInv(k)
    requires b != INVALID ==> !k.batchs[b].childFinish[s] && BatchInv(k, b) && CoInv(k, k.batchs[b].parentCid)
    ensures FinishInv(r)
  {
    var old', new' := Pending(k), Pending(r);
    assert new' == old' + r.finishList[|k.finishList|..];
    forall p | p in old' ensures Waiting(r, p) && (b != INVALID ==> p != k.batchs[b].parentCid) {
      assert Waiting(k, p);
      EndsWaiting(k, r, s, b, p);
    }
    if b != INVALID && AllDone(r.batchs[b].childFinish) {
      assert new' == old' + [k.batchs[b].parentCid];
      assert Waiting(r, k.batchs[b].parentCid);
    } else {
      assert new' == old';
    }
    assert forall p :: p in new' ==> Waiting(r, p);
  }

  lemma EndReady(k: Kernel)
    requires Inv(k) && Running(k) && Self(k).call == NoCall && Self(k).prog == End
    ensures StepSafe(k) && Ends(k, Step(k), k.slave, Self(k).relateBid)
    ensures var b := Self(k).relateBid;
            b != INVALID ==> !k.batchs[b].childFinish[k.slave] && BatchInv(k, b) && CoInv(k, k.batchs[b].parentCid)
  {
    var s, b := k.slave, Self(k).relateBid;
    assert CoInv(k, s);
    if b != INVALID {
      assert BatchInv(k, b);
      assert CoInv(k, k.batchs[b].parentCid);
    }
  }

  lemma EndInv(k: Kernel)
    requires Inv(k) && Running(k) && Self(k).call == NoCall && Self(k).prog == End
    ensures StepSafe(k) && Inv(Step(k)) && Tops(Step(k)) <= Tops(k)
  {
    EndReady(k);
    var s, b, r := k.slave, Self(k).relateBid, Step(k);
    forall c | 0 <= c < |r.cos| ensures CoInv(r, c) { EndsCo(k, r, s, b, c); }
    forall x | 0 <= x < |r.batchs| ensures BatchInv(r, x) { EndsBatch(k, r, s, b, x); }
    EndsSize(k, r, s, b);
    EndsFinish(k, r, s, b);
    EndsMutex(k, r, s, b);
  }

  // ---------- Any step ----------

  /**
   A step of a disciplined program trips an assertion of the library exactly when it adds a child while
   every slot is taken, which cannot happen while the top-level coroutines are within their number.
   */
  lemma StepInv(k: Kernel)
    requires Inv(k) && Running(k)
    ensures StepSafe(k) <==> HasRoom(k)
    ensures HasRoom(k) ==> Inv(Step(k)) && Tops(Step(k)) <= Tops(k)
    ensures Within(k) ==> HasRoom(k)
  {
    assert CoInv(k, k.slave);
    match Self(k).call
    case InBatchRun => JoinInv(k);
    case InLock => LockInv(k);
    case NoCall =>
      match Self(k).prog
      case End => EndInv(k);
      case Yield(_) => YieldInv(k);
      case Lock(_) => LockInv(k);
      case UnLock(_) => UnLockInv(k);
      case TryLock(_, _) => TryLockInv(k);
      case BatchCreate(_, _) => BatchCreateInv(k);
      case BatchAdd(_, _, _) => BatchAddInv(k);
      case BatchRun(_) => BatchRunInv(k);
  }

  lemma WithinKept(k: Kernel, r: Kernel)
    requires Within(k) && Tops(r) <= Tops(k) && r.n == k.n
    ensures Within(r)
  {
    SubsetSize(Tops(r), Tops(k));
  }
}
