/**
 What a pass of Run does, visit by visit: who is resumed, in which order, and that CoMutexResume hands a free
 lock to the coroutine that waits longest.
 */
module KernelPasses {
  import opened CoMutex
  import opened Kernel
  import opened KernelInv
  import opened KernelEffects
  import opened KernelRun
  import opened KernelTrace
  import opened KernelReturns

  /** A resumption switches to the coroutine it names, of the finish list to the next one queued, and touches nobody else. */
  lemma WakeEffect(k: Kernel, a: Action)
    requires Enabled(k, a) && (a.Wake? || a.WakeParent?)
    ensures var r := Next(k, a); var c := if a.Wake? then a.cid else k.finishList[k.finishPos];
            && r.slave == c && r.cos[c] == k.cos[c].(state := Run) && SlotsKept(k, r, c)
            && r.batchs == k.batchs && r.mutex == k.mutex && r.notIdle == k.notIdle && r.finishList == k.finishList && r.trace == k.trace
            && r.finishPos == if a.Wake? then k.finishPos else k.finishPos + 1
  {}

  // ---------- CoMutexResume ----------

  /** The head of the queue has left it, and its first step took the lock and went on behind its CoMutexLock. */
  ghost predicate Served(k: Kernel, run: seq<Kernel>, acts: seq<Action>)
    requires HasPick(k.mutex)
  {
    var c := k.mutex.queue[0];
    && |run| > 2 && |acts| > 1 && acts[0] == WakeWaiter && acts[1] == Slave
    && run[1].slave == c && run[1].mutex.queue == k.mutex.queue[1..] && !run[1].mutex.lock
    && run[2].slave == c && run[2].mutex == Mutex(true, c, k.mutex.queue[1..])
    && 0 <= c < |k.cos| == |run[2].cos| && k.cos[c].call == InLock && k.cos[c].prog.Lock?
    && run[2].cos[c].call == NoCall && run[2].cos[c].prog == k.cos[c].prog.next
  }

  /** From k the longest waiter is taken off the queue, takes the lock and runs on to its next switch back in r. */
  ghost predicate WokeWaiter(k: Kernel, r: Kernel) {
    HasPick(k.mutex) && TotalWork(r) < TotalWork(k)
    && exists run, acts :: Turn(k, WakeWaiter, r, run, acts) && Served(k, run, acts)
  }

  lemma PickServes(k: Kernel, r: Kernel, run: seq<Kernel>, acts: seq<Action>)
    requires Paused(k) && HasPick(k.mutex) && Turn(k, WakeWaiter, r, run, acts)
    ensures Served(k, run, acts)
  {
    PickInv(k);
    var c := k.mutex.queue[0];
    assert CoInv(k, c);
    assert acts[1] == acts[1..][0];
    assert run[1] == PickResume(k);
    LockEffect(run[1]);
  }

  /** CoMutexResume wakes the longest waiter exactly if the lock is free and somebody waits; otherwise it changes nothing. */
  lemma MutexPassWakes(k: Kernel)
    requires AtMaster(k)
    ensures if HasPick(k.mutex) then WokeWaiter(k, MutexPass(k)) else MutexPass(k) == k
  {
    if HasPick(k.mutex) {
      var run, acts := WaiterPath(k);
      PickServes(k, MutexPass(k), run, acts);
      PickInv(k);
      ResumeWork(k.(mutex := Pick(k.mutex).0), k.mutex.queue[0]);
    }
  }

  // ---------- The queued parents ----------

  /** Every parent of the list, those queued meanwhile included, is resumed in the order of the list. */
  ghost predicate ParentVisits(ks: seq<Kernel>) {
    && ks != []
    && (forall j :: 0 <= j < |ks| - 1 ==> ks[j].finishPos < |ks[j].finishList| && Turns(ks[j], WakeParent, ks[j + 1]))
    && ks[|ks| - 1].finishPos >= |ks[|ks| - 1].finishList|
  }

  lemma ParentsMore(k: Kernel, ks: seq<Kernel>)
    requires ParentVisits(ks) && k.finishPos < |k.finishList| && Turns(k, WakeParent, ks[0])
    ensures ParentVisits([k] + ks)
  {
    var all := [k] + ks;
    forall j | 0 <= j < |all| - 1 ensures all[j].finishPos < |all[j].finishList| && Turns(all[j], WakeParent, all[j + 1]) {
      if j > 0 { assert Turns(ks[j - 1], WakeParent, ks[j]); }
    }
  }

  lemma {:induction false} ParentSchedule(k: Kernel) returns (ks: seq<Kernel>)
    requires AtMaster(k)
    ensures ParentVisits(ks) && ks[0] == k && FinishPass(k) == ks[|ks| - 1].(finishList := [], finishPos := 0)
    decreases TotalWork(k)
  {
    if k.finishPos < |k.finishList| {
      var run, acts := ParentPath(k);
      var more := ParentSchedule(ParentSlice(k));
      ParentsMore(k, more);
      ks := [k] + more;
    } else {
      ks := [k];
    }
  }

  // ---------- Run ----------

  /**
   One pass of Run: it visits every slot once in order and resumes whoever can be, then resumes every queued parent
   in the order of the list and empties it, then wakes the longest waiter of a free mutex.
   */
  lemma PassSchedule(k: Kernel) returns (pool: seq<Kernel>, parents: seq<Kernel>)
    requires AtMaster(k)
    ensures ParentVisits(parents) && PoolVisits(k, parents[0], pool, 0, |k.cos|)
    ensures var last := parents[|parents| - 1].(finishList := [], finishPos := 0);
            if HasPick(last.mutex) then WokeWaiter(last, Pass(k)) else Pass(k) == last
  {
    pool := PoolSchedule(k, 0);
    parents := ParentSchedule(PoolPass(k, 0));
    MutexPassWakes(FinishPass(PoolPass(k, 0)));
  }

  /** A pass over somebody alive changes k into q. */
  ghost predicate PassChanges(k: Kernel, q: Kernel) {
    AtMaster(k) && k.notIdle > 0 && q == Pass(k) && q != k
  }

  /** From k to r one pass after the other while anybody is alive, each of which changes something. */
  ghost predicate PassByPass(k: Kernel, r: Kernel, ks: seq<Kernel>) {
    && ks != [] && ks[0] == k && ks[|ks| - 1] == r
    && forall j :: 0 <= j < |ks| - 1 ==> PassChanges(ks[j], ks[j + 1])
  }

  lemma PassFirst(k: Kernel, q: Kernel, r: Kernel, more: seq<Kernel>) returns (ks: seq<Kernel>)
    requires PassChanges(k, q) && PassByPass(q, r, more)
    ensures PassByPass(k, r, ks)
  {
    ks := [k] + more;
    forall j | 0 <= j < |ks| - 1 ensures PassChanges(ks[j], ks[j + 1]) {
      if j == 0 { assert ks[1] == q; } else { assert PassChanges(more[j - 1], more[j]); }
    }
  }

  lemma RunNext(k: Kernel)
    requires AtMaster(k) && k.finishPos == 0
    ensures if k.notIdle <= 0 || Stuck(k) then RunAll(k) == k && (k.notIdle <= 0 || Pass(k) == k)
            else Pass(k) != k && TotalWork(Pass(k)) < TotalWork(k) && RunAll(k) == RunAll(Pass(k))
  {
    if k.notIdle > 0 { PassProgress(k); }
  }

  /** Run goes pass by pass, until everybody has ended or a pass would change nothing. */
  lemma {:induction false} RunSchedule(k: Kernel) returns (ks: seq<Kernel>)
    requires AtMaster(k) && k.finishPos == 0
    ensures PassByPass(k, RunAll(k), ks)
    ensures RunAll(k).notIdle <= 0 || Pass(RunAll(k)) == RunAll(k)
    decreases TotalWork(k)
  {
    RunNext(k);
    if k.notIdle <= 0 || Stuck(k) {
      ks := [k];
    } else {
      var more := RunSchedule(Pass(k));
      ks := PassFirst(k, Pass(k), RunAll(Pass(k)), more);
    }
  }
}
