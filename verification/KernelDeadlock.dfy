/**
 Why Run may not return: a parent that waits in BatchRun with the mutex in its hands for a child that wants
 it. Such a state lasts for ever, and it begins with one call of BatchRun, which the caller can foresee.
 */
module KernelDeadlock {
  import opened Base
  import opened Kernel
  import opened KernelInv
  import opened KernelSteps

  /** The mutex is held by a parent that waits in BatchRun for a child that wants it. */
  ghost predicate Dead(k: Kernel) {
    k.mutex.lock && 0 <= k.mutex.hold < |k.cos| && k.cos[k.mutex.hold].call == InBatchRun
    && exists c :: KidWants(k, c, k.mutex.hold)
  }

  predicate AddsChild(k: Kernel) {
    HasOpenBatch(k) && Self(k).call == NoCall && Self(k).prog.BatchAdd?
    && |k.batchs[Self(k).relateBid].childFinish| < k.m
  }

  // ---------- What a step leaves alone ----------

  predicate Bystander(k: Kernel, c: int) {
    Running(k) && 0 <= c < |k.cos| && c != k.slave && (AddsChild(k) ==> c != IdleSlot(k.cos))
  }

  /** A step leaves everybody but the running coroutine and a new child as they were. */
  lemma BystanderCo(k: Kernel, c: int)
    requires StepSafe(k) && Bystander(k, c)
    ensures |Step(k).cos| == |k.cos| && Step(k).cos[c] == k.cos[c] && (Holds(Step(k), c) <==> Holds(k, c))
  {}

  /** The batch of another parent keeps it. */
  lemma ParentKept(k: Kernel, x: int)
    requires StepSafe(k) && 0 <= x < |k.batchs| && k.batchs[x].state != Idle && k.batchs[x].parentCid != k.slave
    ensures |Step(k).batchs| == |k.batchs| && Step(k).batchs[x].parentCid == k.batchs[x].parentCid
  {
    IdleBatchSpec(k.batchs, 0);
  }

  lemma HolderKept(k: Kernel)
    requires StepSafe(k) && k.mutex.lock && k.mutex.hold != k.slave
    ensures Step(k).mutex.lock && Step(k).mutex.hold == k.mutex.hold
  {}

  /** While somebody else has the mutex, a child that wants it goes on wanting it, and no other begins to. */
  lemma KidStep(k: Kernel)
    requires Inv(k) && StepSafe(k) && k.mutex.lock && k.mutex.hold != k.slave && IsChild(k, k.slave)
    requires Step(k).cos[k.slave].state != Idle
    ensures |Step(k).cos| == |k.cos| && Step(k).cos[k.slave].relateBid == Self(k).relateBid
    ensures Wants(Step(k).cos[k.slave].prog) <==> Wants(Self(k).prog)
  {
    assert CoInv(k, k.slave);
  }

  /** A parent inside BatchRun: its batch is running and its own. */
  lemma JoinerPlace(k: Kernel, p: int)
    requires Inv(k) && 0 <= p < |k.cos| && k.cos[p].call == InBatchRun
    ensures IsParent(k, p) && k.cos[p].state != Idle
    ensures k.batchs[k.cos[p].relateBid].state == Run && k.batchs[k.cos[p].relateBid].parentCid == p
  {
    assert CoInv(k, p);
  }

  /** As long as a child of its batch is alive, a parent inside BatchRun is not resumed. */
  lemma JoinerSleeps(k: Kernel, p: int, c: int)
    requires Inv(k) && 0 <= p < |k.cos| && k.cos[p].call == InBatchRun && KidWants(k, c, p)
    ensures p != k.slave && p !in Pending(k)
  {
    JoinerPlace(k, p);
    assert CoInv(k, c);
    assert BatchInv(k, k.cos[p].relateBid);
    assert !AllDone(k.batchs[k.cos[p].relateBid].childFinish);
  }

  lemma KidKept(k: Kernel, p: int, c: int)
    requires Inv(k) && StepSafe(k) && k.mutex.lock && k.mutex.hold == p != k.slave
    requires 0 <= p < |k.cos| && k.cos[p].call == InBatchRun && KidWants(k, c, p)
    ensures KidWants(Step(k), c, p)
  {
    JoinerPlace(k, p);
    assert CoInv(k, c) && CoInv(k, p);
    IdleSlotSpec(k.cos, 0);
    BystanderCo(k, p);
    ParentKept(k, k.cos[p].relateBid);
    if c == k.slave {
      assert Self(k).prog != End;
      KidStep(k);
    } else {
      BystanderCo(k, c);
    }
  }

  /** Nothing a coroutine does ends that state. */
  lemma DeadStays(k: Kernel)
    requires Inv(k) && StepSafe(k) && Dead(k)
    ensures Dead(Step(k))
  {
    var p := k.mutex.hold;
    var c :| KidWants(k, c, p);
    JoinerSleeps(k, p, c);
    KidKept(k, p, c);
    HolderKept(k);
    IdleSlotSpec(k.cos, 0);
    assert CoInv(k, p);
    BystanderCo(k, p);
  }

  // ---------- How it begins ----------

  lemma HeldJoinKills(k: Kernel)
    requires Inv(k) && StepSafe(k) && HeldJoin(k)
    ensures Dead(Step(k))
  {
    var c :| 0 <= c < |k.cos| && KidWants(k, c, k.slave);
    assert KidWants(Step(k), c, k.slave);
  }

  /** The parent has just called BatchRun. */
  lemma BornByJoin(k: Kernel, c: int)
    requires Inv(k) && StepSafe(k) && Step(k).mutex.lock && Step(k).mutex.hold == k.slave
    requires |Step(k).cos| == |k.cos| && Step(k).cos[k.slave].call == InBatchRun && KidWants(Step(k), c, k.slave)
    ensures HeldJoin(k)
  {
    assert CoInv(k, k.slave);
    assert KidWants(k, c, k.slave);
  }

  lemma SelfWasKid(k: Kernel, p: int)
    requires Inv(k) && StepSafe(k) && IsParent(k, p) && p != k.slave && k.batchs[k.cos[p].relateBid].state == Run
    requires |Step(k).cos| == |k.cos| && Step(k).cos[k.slave].state != Idle && Step(k).cos[k.slave].relateBid == k.cos[p].relateBid
    ensures IsChild(k, k.slave) && Self(k).relateBid == k.cos[p].relateBid
  {
    assert CoInv(k, k.slave);
    IdleBatchSpec(k.batchs, 0);
  }

  /** The parent was there before, and so was the child. */
  lemma BornBefore(k: Kernel, p: int, c: int)
    requires Inv(k) && StepSafe(k) && k.mutex.lock && k.mutex.hold == p != k.slave
    requires 0 <= p < |k.cos| && k.cos[p].call == InBatchRun && KidWants(Step(k), c, p)
    ensures KidWants(k, c, p)
  {
    JoinerPlace(k, p);
    assert CoInv(k, p) && CoInv(k, k.slave);
    IdleSlotSpec(k.cos, 0);
    BystanderCo(k, p);
    ParentKept(k, k.cos[p].relateBid);
    if c == k.slave {
      SelfWasKid(k, p);
      KidStep(k);
    } else {
      assert AddsChild(k) ==> c != IdleSlot(k.cos);
      BystanderCo(k, c);
    }
  }

  lemma HolderBefore(k: Kernel, p: int)
    requires Inv(k) && StepSafe(k) && Step(k).mutex.lock && Step(k).mutex.hold == p != k.slave
    requires 0 <= p < |Step(k).cos| && Step(k).cos[p].call == InBatchRun
    ensures k.mutex.lock && k.mutex.hold == p && 0 <= p < |k.cos| && k.cos[p].call == InBatchRun
  {
    IdleSlotSpec(k.cos, 0);
    assert Bystander(k, p);
    BystanderCo(k, p);
  }

  lemma BornOnlySo(k: Kernel)
    requires Inv(k) && StepSafe(k) && !Dead(k) && Dead(Step(k))
    ensures HeldJoin(k)
  {
    var p := Step(k).mutex.hold;
    var c :| KidWants(Step(k), c, p);
    if p == k.slave {
      BornByJoin(k, c);
    } else {
      HolderBefore(k, p);
      BornBefore(k, p, c);
    }
  }

  /** It begins exactly with a BatchRun called with the mutex held and with a child that wants it. */
  lemma DeadBornIff(k: Kernel)
    requires Inv(k) && StepSafe(k) && !Dead(k)
    ensures Dead(Step(k)) <==> HeldJoin(k)
  {
    if HeldJoin(k) { HeldJoinKills(k); }
    if Dead(Step(k)) { BornOnlySo(k); }
  }

  // ---------- Programs that never bring it about ----------

  /** Where c stands between BatchCreate and BatchRun. */
  function PhaseOf(k: Kernel, c: int): Phase {
    if IsParent(k, c) && k.batchs[k.cos[c].relateBid].state == Ready then
      if k.batchs[k.cos[c].relateBid].childFinish == map[] then Empty else Filled
    else Closed
  }

  /** c is filling a batch and has added a child that wants the mutex. */
  ghost predicate Wanted(k: Kernel, c: int) {
    PhaseOf(k, c) != Closed && exists d :: KidWants(k, d, c)
  }

  ghost predicate FreeAt(k: Kernel, c: int)
    requires 0 <= c < |k.cos|
  {
    k.cos[c].state != Idle ==> FreeAtJoin(k.cos[c].prog, PhaseOf(k, c), Holds(k, c), Wanted(k, c))
  }

  /** No parent waits in BatchRun with the mutex for a child that wants it, and none ever will. */
  ghost predicate FreeInv(k: Kernel) {
    !Dead(k) && forall c :: 0 <= c < |k.cos| ==> FreeAt(k, c)
  }

  /** Only the running coroutine is filling a batch. */
  lemma OthersClosed(k: Kernel, c: int)
    requires 0 <= c < |k.cos| && c != k.slave && CoInv(k, c) && k.cos[c].state != Idle
    ensures PhaseOf(k, c) == Closed && !Wanted(k, c)
  {}

  lemma OtherFree(k: Kernel, c: int)
    requires Inv(k) && StepSafe(k) && Bystander(k, c) && FreeAt(k, c)
    ensures |Step(k).cos| == |k.cos| && FreeAt(Step(k), c)
  {
    BystanderCo(k, c);
    assert CoInv(k, c);
    if k.cos[c].state != Idle {
      OthersClosed(k, c);
      IdleBatchSpec(k.batchs, 0);
      assert PhaseOf(Step(k), c) == Closed;
    }
  }

  lemma ChildFree(k: Kernel)
    requires Inv(k) && StepSafe(k) && AddsChild(k) && FreeAt(k, k.slave)
    ensures var c := IdleSlot(k.cos); 0 <= c < |Step(k).cos| && FreeAt(Step(k), c)
  {
    IdleSlotSpec(k.cos, 0);
    assert CoInv(k, k.slave);
    assert !Holds(k, IdleSlot(k.cos));
    assert PhaseOf(Step(k), IdleSlot(k.cos)) == Closed;
  }

  /** A fresh batch has no child yet. */
  lemma CreatePhase(k: Kernel)
    requires Inv(k) && StepSafe(k) && Self(k).call == NoCall && Self(k).prog.BatchCreate?
    ensures PhaseOf(Step(k), k.slave) == if IdleBatch(k.batchs) == INVALID then Closed else Empty
    ensures !Wanted(Step(k), k.slave)
  {
    assert CoInv(k, k.slave);
    IdleBatchSpec(k.batchs, 0);
    if IdleBatch(k.batchs) != INVALID { IdleUnrelated(k, IdleBatch(k.batchs)); }
  }

  lemma AddPhase(k: Kernel)
    requires Inv(k) && StepSafe(k) && Self(k).call == NoCall && Self(k).prog.BatchAdd?
    ensures |Step(k).cos| == |k.cos| && PhaseOf(Step(k), k.slave) == Filled
    ensures AddsChild(k) ==> IdleSlot(k.cos) != k.slave
  {
    assert CoInv(k, k.slave);
    IdleSlotSpec(k.cos, 0);
  }

  lemma AddKids(k: Kernel, d: int)
    requires Inv(k) && StepSafe(k) && Self(k).call == NoCall && Self(k).prog.BatchAdd?
    requires !(AddsChild(k) && d == IdleSlot(k.cos))
    ensures KidWants(Step(k), d, k.slave) <==> KidWants(k, d, k.slave)
  {
    assert CoInv(k, k.slave);
    IdleSlotSpec(k.cos, 0);
    if 0 <= d < |k.cos| && d != k.slave { BystanderCo(k, d); }
  }

  lemma AddNewKid(k: Kernel)
    requires Inv(k) && StepSafe(k) && AddsChild(k)
    ensures KidWants(Step(k), IdleSlot(k.cos), k.slave) <==> Wants(Self(k).prog.child)
    ensures !KidWants(k, IdleSlot(k.cos), k.slave)
  {
    assert CoInv(k, k.slave);
    IdleSlotSpec(k.cos, 0);
  }

  /** The children wanting the mutex after BatchAdd are those before it, and the new one if it does. */
  lemma AddWanted(k: Kernel)
    requires Inv(k) && StepSafe(k) && Self(k).call == NoCall && Self(k).prog.BatchAdd?
    ensures Wanted(Step(k), k.slave) <==> Wanted(k, k.slave) || (AddsChild(k) && Wants(Self(k).prog.child))
  {
    assert CoInv(k, k.slave);
    AddPhase(k);
    if AddsChild(k) { AddNewKid(k); }
    forall d | !(AddsChild(k) && d == IdleSlot(k.cos)) ensures KidWants(Step(k), d, k.slave) <==> KidWants(k, d, k.slave) {
      AddKids(k, d);
    }
    if Wanted(k, k.slave) {
      var d :| KidWants(k, d, k.slave);
      assert KidWants(Step(k), d, k.slave);
    }
  }

  lemma PlainKids(k: Kernel, d: int)
    requires Inv(k) && StepSafe(k) && Self(k).call == NoCall && (Self(k).prog.UnLock? || Self(k).prog.TryLock?)
    requires IsParent(k, k.slave)
    ensures KidWants(Step(k), d, k.slave) <==> KidWants(k, d, k.slave)
  {}

  /** A call that is not about batches leaves the children of the caller's open batch alone. */
  lemma PlainWanted(k: Kernel)
    requires Inv(k) && StepSafe(k) && Self(k).call == NoCall && (Self(k).prog.UnLock? || Self(k).prog.TryLock?)
    ensures |Step(k).cos| == |k.cos| && PhaseOf(Step(k), k.slave) == PhaseOf(k, k.slave)
    ensures Wanted(Step(k), k.slave) <==> Wanted(k, k.slave)
  {
    if IsParent(k, k.slave) {
      forall d ensures KidWants(Step(k), d, k.slave) <==> KidWants(k, d, k.slave) { PlainKids(k, d); }
    }
  }

  lemma SelfFreeBatch(k: Kernel)
    requires Inv(k) && StepSafe(k) && FreeAt(k, k.slave) && |Step(k).cos| == |k.cos|
    requires Self(k).call == NoCall && (Self(k).prog.BatchCreate? || Self(k).prog.BatchAdd?)
    ensures FreeAt(Step(k), k.slave)
  {
    assert CoInv(k, k.slave);
    if Self(k).prog.BatchCreate? {
      CreatePhase(k);
    } else {
      AddPhase(k);
      AddWanted(k);
    }
  }

  /** The calls a coroutine makes outside BatchCreate and BatchRun, and those that bring it there. */
  lemma SelfFreeClosed(k: Kernel)
    requires Inv(k) && StepSafe(k) && FreeAt(k, k.slave) && |Step(k).cos| == |k.cos|
    requires Self(k).call != NoCall || Self(k).prog.End? || Self(k).prog.Yield? || Self(k).prog.Lock? || Self(k).prog.BatchRun?
    ensures FreeAt(Step(k), k.slave)
  {
    assert CoInv(k, k.slave);
    assert PhaseOf(Step(k), k.slave) == Closed;
  }

  lemma SelfFree(k: Kernel)
    requires Inv(k) && StepSafe(k) && FreeAt(k, k.slave) && |Step(k).cos| == |k.cos|
    ensures FreeAt(Step(k), k.slave)
  {
    if Self(k).call == NoCall && (Self(k).prog.BatchCreate? || Self(k).prog.BatchAdd?) {
      SelfFreeBatch(k);
    } else if Self(k).call == NoCall && (Self(k).prog.UnLock? || Self(k).prog.TryLock?) {
      PlainWanted(k);
    } else {
      SelfFreeClosed(k);
    }
  }

  lemma PoolSize(k: Kernel)
    requires StepSafe(k)
    ensures |Step(k).cos| == |k.cos|
  {}

  /** A program that keeps the rule does not make the fatal call. */
  lemma FreeNoHeldJoin(k: Kernel)
    requires Inv(k) && StepSafe(k) && FreeAt(k, k.slave)
    ensures !HeldJoin(k)
  {
    assert CoInv(k, k.slave);
  }

  lemma StepFree(k: Kernel)
    requires Inv(k) && StepSafe(k)
    ensures FreeInv(k) ==> FreeInv(Step(k))
  {
    if FreeInv(k) {
      PoolSize(k);
      assert FreeAt(k, k.slave);
      forall c | 0 <= c < |k.cos| ensures FreeAt(Step(k), c) {
        assert FreeAt(k, c);
        if c == k.slave { SelfFree(k); }
        else if AddsChild(k) && c == IdleSlot(k.cos) { ChildFree(k); }
        else { OtherFree(k, c); }
      }
      FreeNoHeldJoin(k);
      DeadBornIff(k);
    }
  }

  // ---------- What the master does between two steps ----------

  /** r differs from k only in who is running and in its queues. */
  ghost predicate Switched(k: Kernel, r: Kernel) {
    && |r.cos| == |k.cos| && r.batchs == k.batchs && r.mutex.lock == k.mutex.lock && r.mutex.hold == k.mutex.hold
    && forall c :: 0 <= c < |k.cos| ==>
         r.cos[c] == k.cos[c].(state := r.cos[c].state) && (r.cos[c].state == Idle <==> k.cos[c].state == Idle)
  }

  lemma SwitchDead(k: Kernel, r: Kernel)
    requires Switched(k, r)
    ensures forall c, p :: KidWants(r, c, p) <==> KidWants(k, c, p)
    ensures Dead(r) <==> Dead(k)
  {
    if Dead(k) {
      var c :| KidWants(k, c, k.mutex.hold);
      assert KidWants(r, c, k.mutex.hold);
    }
  }

  lemma SwitchFree(k: Kernel, r: Kernel)
    requires Switched(k, r)
    ensures FreeInv(k) ==> FreeInv(r)
  {
    SwitchDead(k, r);
    if FreeInv(k) {
      forall c | 0 <= c < |r.cos| ensures FreeAt(r, c) {
        assert FreeAt(k, c);
        assert PhaseOf(r, c) == PhaseOf(k, c);
        if Wanted(k, c) {
          var d :| KidWants(k, d, c);
          assert KidWants(r, d, c);
        }
      }
    }
  }

  /** What becomes of k in r: a dead state stays dead, and who keeps the rule goes on keeping it. */
  ghost predicate Fate(k: Kernel, r: Kernel) {
    (Dead(k) ==> Dead(r)) && (FreeInv(k) ==> FreeInv(r))
  }

  lemma StepFate(k: Kernel)
    requires Inv(k) && StepSafe(k)
    ensures Fate(k, Step(k))
  {
    if Dead(k) { DeadStays(k); }
    StepFree(k);
  }

  lemma SwitchFate(k: Kernel, r: Kernel)
    requires Switched(k, r)
    ensures Fate(k, r)
  {
    SwitchDead(k, r);
    SwitchFree(k, r);
  }
}
