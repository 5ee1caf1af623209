/** Why two rules are needed: a run that breaks the one about BatchRun and the mutex, and one with too many top-level coroutines. */
module KernelWitness {
  import opened Base
  import opened CoMutex
  import opened Kernel
  import opened KernelInv
  import opened KernelRun
  import opened KernelTrace

  const CHILD := Lock(UnLock(End))
  const WAIT := BatchRun(UnLock(End))
  const FILL := BatchAdd(CHILD, WAIT, WAIT)

  /** A parent that keeps the mutex while it waits for a child that wants it. */
  const HELD_JOIN := Lock(BatchCreate(FILL, UnLock(End)))

  const SLEEPING := Coroutine(Suspend, 0, UnLock(End), InBatchRun, 0)

  /** The part of the state the run changes: both slots, the first batch, the mutex. */
  ghost predicate At(k: Kernel, cos: seq<Coroutine>, b: Batch, slave: int, mutex: Mutex) {
    && k.n == k.m == 1 && k.cos == cos && |cos| == 2 && |k.batchs| == MAX_BATCH && k.batchs[0] == b
    && k.slave == slave && k.mutex == mutex && k.finishList == [] && k.finishPos == 0
  }

  /** A run that creates that parent only, within the allowance of one. */
  ghost predicate HeldRun(run: seq<Kernel>, acts: seq<Action>) {
    IsRun(run, acts, 1, 1) && Allowed(run, acts, 1) && forall a :: a in acts && a.Create? ==> a.prog == HELD_JOIN
  }

  lemma Go(run: seq<Kernel>, acts: seq<Action>, a: Action) returns (run': seq<Kernel>, acts': seq<Action>)
    requires HeldRun(run, acts) && Enabled(run[|acts|], a) && !a.Create?
    ensures HeldRun(run', acts') && run'[|acts'|] == Next(run[|acts|], a)
  {
    run', acts' := run + [Next(run[|acts|], a)], acts + [a];
  }

  lemma Start() returns (run: seq<Kernel>, acts: seq<Action>)
    ensures HeldRun(run, acts)
    ensures At(run[|acts|], [Coroutine(Ready, INVALID, HELD_JOIN, NoCall, 0), IDLE_COROUTINE], IDLE_BATCH, INVALID, FREE)
  {
    var k := Init(1, 1);
    assert Tops(k) == {};
    run, acts := [k, Next(k, Create(HELD_JOIN))], [Create(HELD_JOIN)];
  }

  lemma Opens(run: seq<Kernel>, acts: seq<Action>) returns (run': seq<Kernel>, acts': seq<Action>)
    requires HeldRun(run, acts)
    requires At(run[|acts|], [Coroutine(Ready, INVALID, HELD_JOIN, NoCall, 0), IDLE_COROUTINE], IDLE_BATCH, INVALID, FREE)
    ensures HeldRun(run', acts')
    ensures At(run'[|acts'|], [Coroutine(Run, 0, FILL, NoCall, 0), IDLE_COROUTINE], Batch(Ready, 0, map[]), 0, Mutex(true, 0, []))
  {
    run', acts' := Go(run, acts, Wake(0));
    run', acts' := Go(run', acts', Slave);
    assert At(run'[|acts'|], [Coroutine(Run, INVALID, HELD_JOIN.next, NoCall, 0), IDLE_COROUTINE], IDLE_BATCH, 0, Mutex(true, 0, []));
    run', acts' := Go(run', acts', Slave);
  }

  lemma Waits(run: seq<Kernel>, acts: seq<Action>) returns (run': seq<Kernel>, acts': seq<Action>, s: nat)
    requires HeldRun(run, acts)
    requires At(run[|acts|], [Coroutine(Run, 0, FILL, NoCall, 0), IDLE_COROUTINE], Batch(Ready, 0, map[]), 0, Mutex(true, 0, []))
    ensures HeldRun(run', acts')
    ensures At(run'[|acts'|], [SLEEPING, Coroutine(Ready, 0, CHILD, NoCall, s)],
               Batch(Run, 0, map[1 := false]), INVALID, Mutex(true, 0, []))
  {
    s := run[|acts|].nextSerial;
    IdleSlotSpec(run[|acts|].cos, 0);
    assert run[|acts|].cos[1].state == Idle;
    run', acts' := Go(run, acts, Slave);
    assert At(run'[|acts'|], [Coroutine(Run, 0, WAIT, NoCall, 0), Coroutine(Ready, 0, CHILD, NoCall, s)],
              Batch(Ready, 0, map[1 := false]), 0, Mutex(true, 0, []));
    run', acts' := Go(run', acts', Slave);
  }

  lemma Child(run: seq<Kernel>, acts: seq<Action>, s: nat) returns (run': seq<Kernel>, acts': seq<Action>)
    requires HeldRun(run, acts)
    requires At(run[|acts|], [SLEEPING, Coroutine(Ready, 0, CHILD, NoCall, s)],
                Batch(Run, 0, map[1 := false]), INVALID, Mutex(true, 0, []))
    ensures HeldRun(run', acts')
    ensures At(run'[|acts'|], [SLEEPING, Coroutine(Suspend, 0, CHILD, InLock, s)],
               Batch(Run, 0, map[1 := false]), INVALID, Mutex(true, 0, [1]))
  {
    run', acts' := Go(run, acts, Wake(1));
    run', acts' := Go(run', acts', Slave);
  }

  lemma Sticks(k: Kernel, s: nat)
    requires Paused(k)
    requires At(k, [SLEEPING, Coroutine(Suspend, 0, CHILD, InLock, s)], Batch(Run, 0, map[1 := false]), INVALID, Mutex(true, 0, [1]))
    ensures Stuck(k)
  {
    CountLiveZero(k.cos);
  }

  lemma Ends(run: seq<Kernel>, acts: seq<Action>, s: nat)
    requires HeldRun(run, acts)
    requires At(run[|acts|], [SLEEPING, Coroutine(Suspend, 0, CHILD, InLock, s)],
                Batch(Run, 0, map[1 := false]), INVALID, Mutex(true, 0, [1]))
    ensures var k := run[|acts|]; AtMaster(k) && k.finishPos == 0 && Stuck(k) && Pass(k) == k && !Returns(k)
  {
    Reachable(run, acts, 1, 1, |acts|);
    StaysWithin(run, acts, 1, 1, |acts|);
    Sticks(run[|acts|], s);
    StuckNeverReturns(run[|acts|]);
  }

  lemma HeldJoinAccepted()
    ensures Wf(HELD_JOIN, 1, Closed, false, false)
  {}

  /** The library accepts the program, but its run comes to a state that no pass changes, so Run does not return. */
  lemma HeldJoinSpins() returns (run: seq<Kernel>, acts: seq<Action>)
    ensures Wf(HELD_JOIN, 1, Closed, false, false) && HeldRun(run, acts)
    ensures var k := run[|acts|]; AtMaster(k) && k.finishPos == 0 && Stuck(k) && Pass(k) == k && !Returns(k)
  {
    HeldJoinAccepted();
    run, acts := Start();
    run, acts := Opens(run, acts);
    var s: nat;
    run, acts, s := Waits(run, acts);
    run, acts := Child(run, acts, s);
    Ends(run, acts, s);
  }

  // ---------- More top-level coroutines than the constructor was asked for ----------

  const FORK := BatchCreate(BatchAdd(End, BatchRun(End), BatchRun(End)), End)

  lemma Next1(run: seq<Kernel>, acts: seq<Action>, a: Action) returns (run': seq<Kernel>, acts': seq<Action>)
    requires IsRun(run, acts, 1, 1) && Enabled(run[|acts|], a)
    ensures IsRun(run', acts', 1, 1) && run'[|acts'|] == Next(run[|acts|], a)
  {
    run', acts' := run + [Next(run[|acts|], a)], acts + [a];
  }

  lemma TwoTops() returns (run: seq<Kernel>, acts: seq<Action>)
    ensures IsRun(run, acts, 1, 1)
    ensures exists s: nat :: At(run[|acts|], [Coroutine(Ready, INVALID, FORK, NoCall, 0), Coroutine(Ready, INVALID, End, NoCall, s)],
                                IDLE_BATCH, INVALID, FREE)
  {
    run, acts := [Init(1, 1)], [];
    run, acts := Next1(run, acts, Create(FORK));
    var s := run[|acts|].nextSerial;
    IdleSlotSpec(run[|acts|].cos, 0);
    assert run[|acts|].cos[1].state == Idle;
    run, acts := Next1(run, acts, Create(End));
    assert At(run[|acts|], [Coroutine(Ready, INVALID, FORK, NoCall, 0), Coroutine(Ready, INVALID, End, NoCall, s)],
              IDLE_BATCH, INVALID, FREE);
  }

  /** With n = m = 1, a second top-level coroutine takes the slot of the first one's child, and BatchAdd aborts. */
  lemma CrowdedAborts() returns (run: seq<Kernel>, acts: seq<Action>)
    ensures Wf(FORK, 1, Closed, false, false) && IsRun(run, acts, 1, 1)
    ensures var k := run[|acts|]; Running(k) && Self(k).prog.BatchAdd? && HasOpenBatch(k) && !StepSafe(k)
  {
    run, acts := TwoTops();
    run, acts := Next1(run, acts, Wake(0));
    run, acts := Next1(run, acts, Slave);
    var k := run[|acts|];
    IdleSlotSpec(k.cos, 0);
    assert k.cos[0].state == Run && k.cos[1].state == Ready;
    assert k.batchs[0] == Batch(Ready, 0, map[]);
  }
}
