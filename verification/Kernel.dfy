/**
 The coroutine scheduler as values: the slot pool, the batch pool, the finish list and one CoMutex,
 and what every scheduler or library call does to them. A coroutine is a finite program; the part
 of it that is still to run stands for its stack.
 */
module Kernel {
  import opened Base
  import opened CoMutex

  const MAX_BATCH: nat := 5120
  const MAX_COROUTINE: nat := 10240

  datatype State = Idle | Ready | Run | Suspend

  /** What a coroutine body still has to do. Branches carry what the caller does with the answer. */
  datatype Prog =
    | End
    | Yield(next: Prog)
    | Lock(next: Prog)
    | UnLock(next: Prog)
    | TryLock(yes: Prog, no: Prog)
    | BatchCreate(next: Prog, none: Prog)
    | BatchAdd(child: Prog, added: Prog, full: Prog)
    | BatchRun(next: Prog)

  /** The library call a coroutine is suspended inside. */
  datatype Call = NoCall | InLock | InBatchRun

  /** serial identifies one use of the slot. */
  datatype Coroutine = Coroutine(state: State, relateBid: int, prog: Prog, call: Call, serial: nat)

  datatype Batch = Batch(state: State, parentCid: int, childFinish: map<int, bool>)

  /** History of a run, by serial number. */
  datatype Event = Added(parent: nat, child: nat) | Done(serial: nat) | Queued(parent: nat) | Joined(parent: nat)

  /**
   n top-level coroutines with batches of at most m children; slave is the running coroutine or INVALID.
   finishPos counts the entries of finishList already resumed by the pass that walks it.
   */
  datatype Kernel = Kernel(
    n: nat, m: nat,
    cos: seq<Coroutine>, batchs: seq<Batch>, finishList: seq<int>, finishPos: nat,
    notIdle: int, slave: int, mutex: Mutex, nextSerial: nat, trace: seq<Event>)

  const IDLE_COROUTINE := Coroutine(Idle, INVALID, End, NoCall, 0)
  const IDLE_BATCH := Batch(Idle, INVALID, map[])

  function Init(n: nat, m: nat): Kernel {
    Kernel(n, m, seq((m + 1) * n, _ => IDLE_COROUTINE), seq(MAX_BATCH, _ => IDLE_BATCH), [], 0, 0, INVALID, FREE, 0, [])
  }

  // ---------- Client discipline ----------

  datatype Phase = Closed | Empty | Filled  // no open batch; open and empty; open with a child

  /** prog keeps the rules when started in the given phase, holding the mutex or not, as a child or not. */
  predicate Wf(p: Prog, m: nat, phase: Phase, holds: bool, child: bool) {
    match p
    case End => phase == Closed && !holds
    case Yield(next) => phase == Closed && Wf(next, m, phase, holds, child)
    case Lock(next) => phase == Closed && !holds && Wf(next, m, phase, true, child)
    case UnLock(next) => holds && Wf(next, m, phase, false, child)
    case TryLock(yes, no) => Wf(no, m, phase, holds, child) && (!holds ==> Wf(yes, m, phase, true, child))
    case BatchCreate(next, none) =>
      !child && m > 0 && phase == Closed && Wf(next, m, Empty, holds, child) && Wf(none, m, Closed, holds, child)
    case BatchAdd(kid, added, full) =>
      !child && m > 0 && phase != Closed && Wf(kid, m, Closed, false, true) && Wf(added, m, Filled, holds, child)
      && (phase == Filled ==> Wf(full, m, Filled, holds, child))
    case BatchRun(next) => !child && phase == Filled && Wf(next, m, Closed, holds, child)
  }

  /** prog comes to a Lock before anything else that could matter, if the mutex stays taken. */
  predicate Wants(p: Prog) {
    match p
    case Lock(_) => true
    case Yield(next) => Wants(next)
    case TryLock(_, no) => Wants(no)
    case _ => false
  }

  /** On no path does prog call BatchRun with the mutex in its hands after adding a child that wants it. */
  predicate FreeAtJoin(p: Prog, phase: Phase, holds: bool, wanted: bool) {
    match p
    case End => true
    case Yield(next) => FreeAtJoin(next, phase, holds, wanted)
    case Lock(next) => FreeAtJoin(next, phase, true, wanted)
    case UnLock(next) => FreeAtJoin(next, phase, false, wanted)
    case TryLock(yes, no) => FreeAtJoin(no, phase, holds, wanted) && (!holds ==> FreeAtJoin(yes, phase, true, wanted))
    case BatchCreate(next, none) => FreeAtJoin(next, Empty, holds, false) && FreeAtJoin(none, Closed, holds, false)
    case BatchAdd(kid, added, full) =>
      FreeAtJoin(kid, Closed, false, false) && FreeAtJoin(added, Filled, holds, wanted || Wants(kid))
      && (phase == Filled ==> FreeAtJoin(full, Filled, holds, wanted))
    case BatchRun(next) => !(holds && wanted) && FreeAtJoin(next, Closed, holds, false)
  }

  // ---------- Work left, the termination measure ----------

  function Work(p: Prog): nat {
    match p
    case End => 0
    case Yield(next) => 1 + Work(next)
    case Lock(next) => 2 + Work(next)
    case UnLock(next) => 1 + Work(next)
    case TryLock(yes, no) => 1 + Work(yes) + Work(no)
    case BatchCreate(next, none) => 1 + Work(next) + Work(none)
    case BatchAdd(kid, added, full) => 2 + Work(kid) + Work(added) + Work(full)
    case BatchRun(next) => 2 + Work(next)
  }

  function CoWork(co: Coroutine): nat {
    if co.state == Idle then 0
    else match co.call
      case NoCall => 1 + Work(co.prog)
      case InLock => if co.prog.Lock? then Work(co.prog) else 0
      case InBatchRun => 2 + Work(co.prog)
  }

  function SumWork(cos: seq<Coroutine>): nat {
    if cos == [] then 0 else CoWork(cos[0]) + SumWork(cos[1..])
  }

  function TotalWork(k: Kernel): nat { SumWork(k.cos) }

  function CountLive(cos: seq<Coroutine>): nat {
    if cos == [] then 0 else (if cos[0].state == Idle then 0 else 1) + CountLive(cos[1..])
  }

  // ---------- Scans ----------

  /** The lowest idle slot from i on, or INVALID. */
  function IdleSlot(cos: seq<Coroutine>, i: nat := 0): int
    requires i <= |cos|
    decreases |cos| - i
  {
    if i == |cos| then INVALID else if cos[i].state == Idle then i else IdleSlot(cos, i + 1)
  }

  function IdleBatch(batchs: seq<Batch>, i: nat := 0): int
    requires i <= |batchs|
    decreases |batchs| - i
  {
    if i == |batchs| then INVALID else if batchs[i].state == Idle then i else IdleBatch(batchs, i + 1)
  }

  predicate AllDone(childFinish: map<int, bool>) {
    forall c :: c in childFinish ==> childFinish[c]
  }

  // ---------- Steps of the running coroutine ----------

  predicate Running(k: Kernel) {
    0 <= k.slave < |k.cos|
  }

  function Self(k: Kernel): Coroutine
    requires Running(k)
  {
    k.cos[k.slave]
  }

  function WithSelf(k: Kernel, co: Coroutine): Kernel
    requires Running(k)
  {
    k.(cos := k.cos[k.slave := co])
  }

  /** CoroutineYield up to the switch back to the master. */
  function Suspended(k: Kernel): Kernel
    requires Running(k)
  {
    WithSelf(k, Self(k).(state := Suspend)).(slave := INVALID)
  }

  /** One turn of the CoMutexLock loop. */
  function LockStep(k: Kernel): Kernel
    requires Running(k) && Self(k).prog.Lock?
  {
    var co := Self(k);
    var k' := k.(mutex := LockAttempt(k.mutex, k.slave));
    if !k.mutex.lock then WithSelf(k', co.(prog := co.prog.next, call := NoCall))
    else Suspended(WithSelf(k', co.(call := InLock)))
  }

  function UnLockStep(k: Kernel): Kernel
    requires Running(k) && Self(k).prog.UnLock? && k.mutex.lock && k.mutex.hold == k.slave
  {
    WithSelf(k, Self(k).(prog := Self(k).prog.next)).(mutex := CoMutex.UnLock(k.mutex, k.slave))
  }

  function TryLockStep(k: Kernel): Kernel
    requires Running(k) && Self(k).prog.TryLock?
  {
    var (mu, ok) := CoMutex.TryLock(k.mutex, k.slave);
    WithSelf(k, Self(k).(prog := if ok then Self(k).prog.yes else Self(k).prog.no)).(mutex := mu)
  }

  /** BatchCreate claims the lowest idle batch for the caller; without one it only answers kInvalidBid. */
  function BatchCreateStep(k: Kernel): Kernel
    requires Running(k) && Self(k).prog.BatchCreate?
  {
    var b := IdleBatch(k.batchs);
    var co := Self(k);
    if 0 <= b < |k.batchs| then
      WithSelf(k, co.(prog := co.prog.next, relateBid := b)).(batchs := k.batchs[b := k.batchs[b].(state := Ready, parentCid := k.slave)])
    else WithSelf(k, co.(prog := co.prog.none))
  }

  /** CoroutineCreate: claims the lowest idle slot. */
  function CreateStep(k: Kernel, prog: Prog, relateBid: int): (Kernel, int) {
    var c := IdleSlot(k.cos);
    if 0 <= c < |k.cos| then
      (k.(cos := k.cos[c := Coroutine(Ready, relateBid, prog, NoCall, k.nextSerial)],
          notIdle := k.notIdle + 1, nextSerial := k.nextSerial + 1), c)
    else (k, INVALID)
  }

  predicate HasOpenBatch(k: Kernel) {
    Running(k) && 0 <= Self(k).relateBid < |k.batchs|
    && k.batchs[Self(k).relateBid].parentCid == k.slave && k.batchs[Self(k).relateBid].state == Ready
  }

  /** BatchAdd on the batch the caller opened. */
  function BatchAddStep(k: Kernel): Kernel
    requires HasOpenBatch(k) && Self(k).prog.BatchAdd?
    requires |k.batchs[Self(k).relateBid].childFinish| < k.m ==> IdleSlot(k.cos) != INVALID
  {
    var co := Self(k);
    var b := co.relateBid;
    var x := k.batchs[b];
    if |x.childFinish| >= k.m then WithSelf(k, co.(prog := co.prog.full))
    else
      var (k1, c) := CreateStep(k, co.prog.child, b);
      k1.(cos := k1.cos[k.slave := co.(prog := co.prog.added)],
          batchs := k.batchs[b := x.(childFinish := x.childFinish[c := false])],
          trace := k.trace + [Added(co.serial, k.nextSerial)])
  }

  predicate IsChild(k: Kernel, c: int) {
    0 <= c < |k.cos| && 0 <= k.cos[c].relateBid < |k.batchs| && k.batchs[k.cos[c].relateBid].parentCid != c
  }

  /** c is a live child of p that wants the mutex. */
  predicate KidWants(k: Kernel, c: int, p: int) {
    0 <= c < |k.cos| && 0 <= p < |k.cos| && k.cos[c].state != Idle && IsChild(k, c)
    && k.cos[c].relateBid == k.cos[p].relateBid && Wants(k.cos[c].prog)
  }

  /** The next step calls BatchRun with the mutex held and with a child in the batch that wants it. */
  predicate HeldJoin(k: Kernel) {
    Running(k) && Self(k).call == NoCall && Self(k).prog.BatchRun? && k.mutex.lock && k.mutex.hold == k.slave
    && exists c :: 0 <= c < |k.cos| && KidWants(k, c, k.slave)
  }

  /** BatchRun up to its yield. */
  function BatchRunStep(k: Kernel): Kernel
    requires HasOpenBatch(k) && Self(k).prog.BatchRun?
  {
    var b := Self(k).relateBid;
    Suspended(WithSelf(k, Self(k).(prog := Self(k).prog.next, call := InBatchRun))
              .(batchs := k.batchs[b := k.batchs[b].(state := Run)]))
  }

  /** The rest of BatchRun, once the parent is resumed. */
  function JoinStep(k: Kernel): Kernel
    requires Running(k) && 0 <= Self(k).relateBid < |k.batchs|
  {
    var co := Self(k);
    WithSelf(k, co.(relateBid := INVALID, call := NoCall))
    .(batchs := k.batchs[co.relateBid := IDLE_BATCH], trace := k.trace + [Joined(co.serial)])
  }

  /** The part of CoroutineRun after the entry function returned. */
  function FinishStep(k: Kernel): Kernel
    requires Running(k)
    requires IsChild(k, k.slave) ==> 0 <= k.batchs[Self(k).relateBid].parentCid < |k.cos|
  {
    var co := Self(k);
    var k1 := WithSelf(k, co.(state := Idle)).(slave := INVALID, notIdle := k.notIdle - 1, trace := k.trace + [Done(co.serial)]);
    if IsChild(k, k.slave) then
      var b := co.relateBid;
      var x := k.batchs[b];
      var done := x.childFinish[k.slave := true];
      var k2 := k1.(cos := k1.cos[k.slave := co.(state := Idle, relateBid := INVALID)],
                    batchs := k.batchs[b := x.(childFinish := done)]);
      if AllDone(done) then
        k2.(finishList := k.finishList + [x.parentCid], trace := k2.trace + [Queued(k.cos[x.parentCid].serial)])
      else k2
    else k1
  }

  /** What every C++ assertion met by the next step of the running coroutine demands. */
  predicate StepSafe(k: Kernel) {
    Running(k) &&
    var co := Self(k);
    match co.call
    case InBatchRun => 0 <= co.relateBid < |k.batchs| && k.batchs[co.relateBid].parentCid == k.slave
    case InLock => co.prog.Lock? && (k.mutex.lock ==> k.mutex.hold != k.slave)
    case NoCall =>
      match co.prog
      case End => IsChild(k, k.slave) ==>
        var x := k.batchs[co.relateBid];
        0 <= x.parentCid < |k.cos| && k.slave in x.childFinish && x.state == Run
      case Yield(_) => true
      case Lock(_) => k.mutex.lock ==> k.mutex.hold != k.slave
      case UnLock(_) => k.mutex.lock && k.mutex.hold == k.slave
      case TryLock(_, _) => true
      case BatchCreate(_, _) => k.m > 0
      case BatchAdd(_, _, _) => HasOpenBatch(k)
        && (|k.batchs[co.relateBid].childFinish| < k.m ==> IdleSlot(k.cos) != INVALID)
      case BatchRun(_) => HasOpenBatch(k)
  }

  /** The next atomic step of the running coroutine. */
  function Step(k: Kernel): Kernel
    requires StepSafe(k)
  {
    var co := Self(k);
    match co.call
    case InBatchRun => JoinStep(k)
    case InLock => LockStep(k)
    case NoCall =>
      match co.prog
      case End => FinishStep(k)
      case Yield(next) => Suspended(WithSelf(k, co.(prog := next)))
      case Lock(_) => LockStep(k)
      case UnLock(_) => UnLockStep(k)
      case TryLock(_, _) => TryLockStep(k)
      case BatchCreate(_, _) => BatchCreateStep(k)
      case BatchAdd(_, _, _) => BatchAddStep(k)
      case BatchRun(_) => BatchRunStep(k)
  }

  /** c is the parent of the batch it is related to. */
  predicate IsParent(k: Kernel, c: int) {
    0 <= c < |k.cos| && 0 <= k.cos[c].relateBid < |k.batchs| && k.batchs[k.cos[c].relateBid].parentCid == c
  }

  /** The assertions of CoroutineResume. */
  predicate ResumeSafe(k: Kernel, c: int) {
    k.slave == INVALID && 0 <= c < |k.cos| && (k.cos[c].state == Ready || k.cos[c].state == Suspend)
    && (IsParent(k, c) ==> c in k.finishList)
  }

  /** CoroutineResume up to the switch into the coroutine. */
  function Resume(k: Kernel, c: int): Kernel
    requires 0 <= c < |k.cos|
  {
    k.(cos := k.cos[c := k.cos[c].(state := Run)], slave := c)
  }

  /** CoroutineResume4BatchFinish resumes the next parent of the list. */
  function ResumeParent(k: Kernel): Kernel
    requires k.finishPos < |k.finishList| && 0 <= k.finishList[k.finishPos] < |k.cos|
  {
    Resume(k, k.finishList[k.finishPos]).(finishPos := k.finishPos + 1)
  }
}
