/**
 When Run returns, over all runs: exactly when no coroutine has called, or calls during Run, BatchRun with the
 mutex held and with a child in its batch that wants it.
 */
module KernelReturns {
  import opened Base
  import opened CoMutex
  import opened Kernel
  import opened KernelInv
  import opened KernelSteps
  import opened KernelDeadlock
  import opened KernelRun
  import opened KernelTrace

  /** A top-level creation neither brings about nor ends the state Run cannot leave. */
  lemma CreateFate(k: Kernel, prog: Prog)
    requires Paused(k) && Wf(prog, k.m, Closed, false, false)
    ensures var r := CreateStep(k, prog, INVALID).0;
            (Dead(r) <==> Dead(k)) && (FreeInv(k) && FreeAtJoin(prog, Closed, false, false) ==> FreeInv(r))
  {
    if IdleSlot(k.cos) == INVALID {
      CreateFailsIff(k, prog, INVALID);
    } else {
      CreateReady(k, prog);
      CreatesDead(k, CreateStep(k, prog, INVALID).0, IdleSlot(k.cos), prog);
      if FreeInv(k) && FreeAtJoin(prog, Closed, false, false) {
        CreatesFree(k, CreateStep(k, prog, INVALID).0, IdleSlot(k.cos), prog);
      }
    }
  }

  lemma WakeParentFate(k: Kernel)
    requires Paused(k) && k.finishPos < |k.finishList|
    ensures ResumeSafe(k, k.finishList[k.finishPos]) && Switched(k, ResumeParent(k))
  {
    ResumeParentInv(k);
  }

  lemma WakeWaiterFate(k: Kernel)
    requires Paused(k) && HasPick(k.mutex)
    ensures 0 <= k.mutex.queue[0] < |k.cos| && Switched(k, PickResume(k))
  {
    PickInv(k);
  }

  /** Every action but a step of the running coroutine only switches, or creates. */
  lemma MasterSwitches(k: Kernel, a: Action)
    requires Inv(k) && Enabled(k, a) && !a.Slave? && !a.Create?
    ensures Switched(k, Next(k, a))
  {
    match a
    case Wake(c) =>
    case WakeParent => WakeParentFate(k);
    case ClearList =>
    case WakeWaiter => WakeWaiterFate(k);
  }

  lemma NextFate(k: Kernel, a: Action)
    requires Inv(k) && Enabled(k, a) && (a.Create? && FreeInv(k) ==> FreeAtJoin(a.prog, Closed, false, false))
    ensures Fate(k, Next(k, a))
  {
    match a
    case Slave => StepFate(k);
    case Create(prog) => CreateFate(k, prog);
    case _ => MasterSwitches(k, a); SwitchFate(k, Next(k, a));
  }

  /** Along any run, such a wait begins with a BatchRun of that kind and with nothing else, and does not end. */
  lemma NextDead(k: Kernel, a: Action)
    requires Inv(k) && Enabled(k, a)
    ensures Dead(Next(k, a)) <==> Dead(k) || (a == Slave && HeldJoin(k))
  {
    match a
    case Slave => if Dead(k) { DeadStays(k); } else { DeadBornIff(k); }
    case Create(prog) => CreateFate(k, prog);
    case _ => MasterSwitches(k, a); SwitchDead(k, Next(k, a));
  }

  /** The actions before i include a BatchRun called with the mutex held and with a child that wants it. */
  ghost predicate HeldJoinBefore(run: seq<Kernel>, acts: seq<Action>, i: nat)
    requires i <= |acts| < |run|
  {
    exists j :: 0 <= j < i && acts[j] == Slave && HeldJoin(run[j])
  }

  /**
   In every run, whoever drives it: a parent with the mutex waits for a child that wants it exactly from the first
   such BatchRun on.
   */
  lemma {:induction false} DeadIff(run: seq<Kernel>, acts: seq<Action>, n: nat, m: nat, i: nat)
    requires IsRun(run, acts, n, m) && i < |run| && n > 0 && (m + 1) * n <= MAX_COROUTINE
    ensures Dead(run[i]) <==> HeldJoinBefore(run, acts, i)
  {
    if i == 0 {
      InitInv(n, m);
    } else {
      DeadIff(run, acts, n, m, i - 1);
      Reachable(run, acts, n, m, i - 1);
      NextDead(run[i - 1], acts[i - 1]);
      assert HeldJoinBefore(run, acts, i) <==>
             HeldJoinBefore(run, acts, i - 1) || (acts[i - 1] == Slave && HeldJoin(run[i - 1]));
    }
  }

  /** Every program the master creates keeps the rule on every path. */
  ghost predicate FreeCreates(acts: seq<Action>) {
    forall a :: a in acts && a.Create? ==> FreeAtJoin(a.prog, Closed, false, false)
  }

  lemma {:induction false} StaysFree(run: seq<Kernel>, acts: seq<Action>, n: nat, m: nat, i: nat)
    requires IsRun(run, acts, n, m) && i < |run| && n > 0 && (m + 1) * n <= MAX_COROUTINE && FreeCreates(acts)
    ensures FreeInv(run[i])
  {
    if i == 0 {
      InitInv(n, m);
    } else {
      StaysFree(run, acts, n, m, i - 1);
      Reachable(run, acts, n, m, i - 1);
      assert acts[i - 1] in acts;
      NextFate(run[i - 1], acts[i - 1]);
    }
  }

  // ---------- The passes of Run are a run of the same actions ----------

  /** acts take k to r through the states of run, creating nothing. */
  ghost predicate Leads(k: Kernel, r: Kernel, run: seq<Kernel>, acts: seq<Action>) {
    IsPath(run, acts) && run[0] == k && run[|acts|] == r && forall a :: a in acts ==> !a.Create?
  }

  lemma Append(run: seq<Kernel>, acts: seq<Action>, more: seq<Kernel>, moreActs: seq<Action>)
    returns (all: seq<Kernel>, allActs: seq<Action>)
    requires IsPath(run, acts) && IsPath(more, moreActs) && run[|acts|] == more[0]
    ensures IsPath(all, allActs) && run <= all && all[|allActs|] == more[|moreActs|]
    ensures allActs == acts + moreActs && all[|acts|..] == more
  {
    all, allActs := run + more[1..], acts + moreActs;
    forall j | 0 <= j < |allActs| ensures Enabled(all[j], allActs[j]) && all[j + 1] == Next(all[j], allActs[j]) {
      if j >= |acts| {
        assert allActs[j] == moreActs[j - |acts|];
        assert all[j] == more[j - |acts|] && all[j + 1] == more[j - |acts| + 1];
      }
    }
  }

  lemma Stay(k: Kernel) returns (run: seq<Kernel>, acts: seq<Action>)
    ensures Leads(k, k, run, acts) && acts == []
  {
    run, acts := [k], [];
  }

  lemma Then(k: Kernel, a: Action, r: Kernel, more: seq<Kernel>, moreActs: seq<Action>)
    returns (run: seq<Kernel>, acts: seq<Action>)
    requires Enabled(k, a) && !a.Create? && Leads(Next(k, a), r, more, moreActs)
    ensures Leads(k, r, run, acts) && acts == [a] + moreActs && run[1..] == more
  {
    run, acts := Append([k, Next(k, a)], [a], more, moreActs);
  }

  lemma AndThen(k: Kernel, q: Kernel, r: Kernel, run: seq<Kernel>, acts: seq<Action>, more: seq<Kernel>, moreActs: seq<Action>)
    returns (all: seq<Kernel>, allActs: seq<Action>)
    requires Leads(k, q, run, acts) && Leads(q, r, more, moreActs)
    ensures Leads(k, r, all, allActs)
  {
    all, allActs := Append(run, acts, more, moreActs);
  }

  /** Only steps of the running coroutine, at least one. */
  ghost predicate OneSlice(acts: seq<Action>) {
    acts != [] && forall j :: 0 <= j < |acts| ==> acts[j] == Slave
  }

  lemma StepThen(k: Kernel, r: Kernel, more: seq<Kernel>, moreActs: seq<Action>) returns (run: seq<Kernel>, acts: seq<Action>)
    requires Running(k) && StepSafe(k) && Leads(Step(k), r, more, moreActs) && (moreActs == [] || OneSlice(moreActs))
    ensures Leads(k, r, run, acts) && OneSlice(acts)
  {
    run, acts := Then(k, Slave, r, more, moreActs);
  }

  lemma {:induction false} SlicePath(k: Kernel) returns (run: seq<Kernel>, acts: seq<Action>)
    requires Inv(k) && Within(k) && Running(k)
    ensures Leads(k, RunSlice(k), run, acts) && OneSlice(acts)
    decreases TotalWork(k)
  {
    StepInv(k);
    StepWork(k);
    WithinKept(k, Step(k));
    if Step(k).slave == INVALID {
      run, acts := Stay(Step(k));
    } else {
      run, acts := SlicePath(Step(k));
    }
    run, acts := StepThen(k, RunSlice(k), run, acts);
  }

  /** a switches to a coroutine, which runs to its next switch back. */
  ghost predicate Turn(k: Kernel, a: Action, r: Kernel, run: seq<Kernel>, acts: seq<Action>) {
    Leads(k, r, run, acts) && acts != [] && acts[0] == a && OneSlice(acts[1..]) && r.slave == INVALID
  }

  lemma TurnPath(k: Kernel, a: Action, r: Kernel) returns (run: seq<Kernel>, acts: seq<Action>)
    requires Enabled(k, a) && (a.Wake? || a.WakeParent? || a.WakeWaiter?)
    requires Inv(Next(k, a)) && Within(Next(k, a)) && Running(Next(k, a)) && r == RunSlice(Next(k, a))
    ensures Turn(k, a, r, run, acts)
  {
    run, acts := SlicePath(Next(k, a));
    run, acts := Then(k, a, r, run, acts);
  }

  lemma ResumePath(k: Kernel, c: int) returns (run: seq<Kernel>, acts: seq<Action>)
    requires AtMaster(k) && Resumable(k, c)
    ensures Turn(k, Wake(c), ResumeSlice(k, c), run, acts)
  {
    ResumeInv(k, c);
    run, acts := TurnPath(k, Wake(c), ResumeSlice(k, c));
  }

  /** a switches to a coroutine, which runs to its next switch back in r. */
  ghost predicate Turns(k: Kernel, a: Action, r: Kernel) {
    exists run, acts :: Turn(k, a, r, run, acts)
  }

  /** Slot i is resumed, and runs to its next switch back, exactly if it can be. */
  ghost predicate Visited(k: Kernel, i: int, r: Kernel) {
    if Resumable(k, i) then Turns(k, Wake(i), r) else r == k
  }

  /** From k to r the slots from i on are visited once each, in their order. */
  ghost predicate PoolVisits(k: Kernel, r: Kernel, ks: seq<Kernel>, i: nat, size: nat) {
    && i <= size && |ks| == size - i + 1 && ks[0] == k && ks[size - i] == r
    && forall j :: 0 <= j < size - i ==> Visited(ks[j], i + j, ks[j + 1])
  }

  lemma VisitsMore(k: Kernel, q: Kernel, r: Kernel, more: seq<Kernel>, i: nat, size: nat) returns (ks: seq<Kernel>)
    requires PoolVisits(q, r, more, i + 1, size) && Visited(k, i, q)
    ensures PoolVisits(k, r, ks, i, size)
  {
    ks := [k] + more;
    forall j | 0 <= j < size - i ensures Visited(ks[j], i + j, ks[j + 1]) {
      if j > 0 { assert Visited(more[j - 1], i + 1 + (j - 1), more[j]); }
    }
  }

  lemma TurnVisits(k: Kernel, i: nat)
    requires AtMaster(k) && i < |k.cos|
    ensures Visited(k, i, PoolTurn(k, i))
  {
    if Resumable(k, i) { var run, acts := ResumePath(k, i); }
  }

  lemma {:induction false} PoolSchedule(k: Kernel, i: nat) returns (ks: seq<Kernel>)
    requires AtMaster(k) && i <= |k.cos|
    ensures PoolVisits(k, PoolPass(k, i), ks, i, |k.cos|)
    decreases |k.cos| - i
  {
    if i == |k.cos| {
      ks := [k];
    } else {
      var q := PoolTurn(k, i);
      TurnVisits(k, i);
      ks := PoolSchedule(q, i + 1);
      ks := VisitsMore(k, q, PoolPass(q, i + 1), ks, i, |k.cos|);
    }
  }

  lemma VisitPath(k: Kernel, i: int, q: Kernel, r: Kernel, more: seq<Kernel>, moreActs: seq<Action>)
    returns (run: seq<Kernel>, acts: seq<Action>)
    requires Visited(k, i, q) && Leads(q, r, more, moreActs)
    ensures Leads(k, r, run, acts)
  {
    run, acts := more, moreActs;
    if Resumable(k, i) {
      run, acts :| Turn(k, Wake(i), q, run, acts);
      run, acts := AndThen(k, q, r, run, acts, more, moreActs);
    }
  }

  lemma VisitsTail(k: Kernel, r: Kernel, ks: seq<Kernel>, i: nat, size: nat)
    requires PoolVisits(k, r, ks, i, size) && i < size
    ensures Visited(k, i, ks[1]) && PoolVisits(ks[1], r, ks[1..], i + 1, size)
  {
    forall j | 0 <= j < size - (i + 1) ensures Visited(ks[1..][j], i + 1 + j, ks[1..][j + 1]) {
      assert Visited(ks[j + 1], i + (j + 1), ks[j + 2]);
    }
    assert Visited(ks[0], i + 0, ks[0 + 1]);
  }

  lemma {:induction false} VisitsPath(k: Kernel, r: Kernel, ks: seq<Kernel>, i: nat, size: nat)
    returns (run: seq<Kernel>, acts: seq<Action>)
    requires PoolVisits(k, r, ks, i, size)
    ensures Leads(k, r, run, acts)
    decreases size - i
  {
    if i == size {
      run, acts := Stay(k);
    } else {
      VisitsTail(k, r, ks, i, size);
      var more, moreActs := VisitsPath(ks[1], r, ks[1..], i + 1, size);
      run, acts := VisitPath(k, i, ks[1], r, more, moreActs);
    }
  }

  lemma ParentPath(k: Kernel) returns (run: seq<Kernel>, acts: seq<Action>)
    requires AtMaster(k) && k.finishPos < |k.finishList|
    ensures Turn(k, WakeParent, ParentSlice(k), run, acts)
  {
    ResumeParentInv(k);
    run, acts := TurnPath(k, WakeParent, ParentSlice(k));
  }

  lemma {:induction false} FinishPath(k: Kernel) returns (run: seq<Kernel>, acts: seq<Action>)
    requires AtMaster(k)
    ensures Leads(k, FinishPass(k), run, acts)
    decreases TotalWork(k)
  {
    if k.finishPos < |k.finishList| {
      var q := ParentSlice(k);
      var more, moreActs := FinishPath(q);
      run, acts := ParentPath(k);
      run, acts := AndThen(k, q, FinishPass(k), run, acts, more, moreActs);
    } else {
      run, acts := Stay(FinishPass(k));
      run, acts := Then(k, ClearList, FinishPass(k), run, acts);
    }
  }

  lemma WaiterPath(k: Kernel) returns (run: seq<Kernel>, acts: seq<Action>)
    requires AtMaster(k) && HasPick(k.mutex)
    ensures Turn(k, WakeWaiter, MutexPass(k), run, acts)
  {
    PickInv(k);
    run, acts := TurnPath(k, WakeWaiter, MutexPass(k));
  }

  lemma MutexPath(k: Kernel) returns (run: seq<Kernel>, acts: seq<Action>)
    requires AtMaster(k)
    ensures Leads(k, MutexPass(k), run, acts)
  {
    if HasPick(k.mutex) {
      run, acts := WaiterPath(k);
    } else {
      run, acts := Stay(k);
    }
  }

  lemma PassPath(k: Kernel) returns (run: seq<Kernel>, acts: seq<Action>)
    requires AtMaster(k)
    ensures Leads(k, Pass(k), run, acts)
  {
    var a := PoolPass(k, 0);
    var b := FinishPass(a);
    var ks := PoolSchedule(k, 0);
    run, acts := VisitsPath(k, a, ks, 0, |k.cos|);
    var more, moreActs := FinishPath(a);
    run, acts := AndThen(k, a, b, run, acts, more, moreActs);
    more, moreActs := MutexPath(b);
    run, acts := AndThen(k, b, Pass(k), run, acts, more, moreActs);
  }

  lemma {:induction false} RunPath(k: Kernel) returns (run: seq<Kernel>, acts: seq<Action>)
    requires AtMaster(k) && k.finishPos == 0
    ensures Leads(k, RunAll(k), run, acts)
    decreases TotalWork(k)
  {
    run, acts := Stay(k);
    if k.notIdle > 0 {
      PassProgress(k);
      if !Stuck(k) {
        var more, moreActs := RunPath(Pass(k));
        run, acts := PassPath(k);
        run, acts := AndThen(k, Pass(k), RunAll(k), run, acts, more, moreActs);
      }
    }
  }

  // ---------- When Run returns ----------

  /**
   The run so far, followed by what Run does from there until it returns or changes nothing any more: Run
   returns exactly when no step of it is a BatchRun called with the mutex held and with a child that wants it.
   */
  lemma RunReturnsIff(run: seq<Kernel>, acts: seq<Action>, n: nat, m: nat) returns (all: seq<Kernel>, allActs: seq<Action>)
    requires IsRun(run, acts, n, m) && n > 0 && (m + 1) * n <= MAX_COROUTINE && Allowed(run, acts, n)
    requires run[|acts|].slave == INVALID && run[|acts|].finishPos == 0
    ensures AtMaster(run[|acts|])
    ensures IsRun(all, allActs, n, m) && run <= all && acts <= allActs && all[|allActs|] == RunAll(run[|acts|])
    ensures Returns(run[|acts|]) <==> !HeldJoinBefore(all, allActs, |allActs|)
  {
    var k := run[|acts|];
    Reachable(run, acts, n, m, |acts|);
    StaysWithin(run, acts, n, m, |acts|);
    var more, moreActs := RunPath(k);
    all, allActs := Append(run, acts, more, moreActs);
    DeadIff(all, allActs, n, m, |allActs|);
    ReturnsUnlessDead(k);
  }

  /**
   From any point between two resumptions of any run within the allowance: if Run returns, everything is idle and
   every fork joined; if not, it comes to a state that no pass changes, in which the mutex is held by a coroutine
   that waits in BatchRun for a child that wants it. Programs that keep the rule on every path let it return.
   */
  lemma RunCompletes(run: seq<Kernel>, acts: seq<Action>, n: nat, m: nat)
    requires IsRun(run, acts, n, m) && n > 0 && (m + 1) * n <= MAX_COROUTINE && Allowed(run, acts, n)
    requires run[|acts|].slave == INVALID && run[|acts|].finishPos == 0
    ensures AtMaster(run[|acts|])
    ensures var k := run[|acts|]; var r := RunAll(k);
            && (if Returns(k) then Quiescent(r) && AllJoined(r.trace) else Stuck(r) && Dead(r) && Pass(r) == r)
            && (FreeCreates(acts) ==> Returns(k))
  {
    var k := run[|acts|];
    Reachable(run, acts, n, m, |acts|);
    StaysWithin(run, acts, n, m, |acts|);
    ReturnsUnlessDead(k);
    ReturnsUnlessStuck(k);
    RunEndsIdle(k);
    ForkJoin(k);
    if Stuck(RunAll(k)) { StuckNeverReturns(RunAll(k)); }
    if FreeCreates(acts) { StaysFree(run, acts, n, m, |acts|); }
  }
}
