/**
 Fork and join over whole runs: BatchRun returns only after every child of that batch ended, each
 child ends exactly once, and a parent is queued exactly once for each time it is joined.
 */
module KernelTrace {
  import opened Base
  import opened CoMutex
  import opened Kernel
  import opened KernelInv
  import opened KernelCapacity
  import opened KernelSteps
  import opened KernelDeadlock
  import opened KernelRun

  // ---------- What a history must satisfy ----------

  ghost predicate DoneOnce(t: seq<Event>) {
    forall i, j :: 0 <= i < j < |t| && t[i].Done? ==> t[i] != t[j]
  }

  /** A child is added before it ends. */
  ghost predicate AddedFirst(t: seq<Event>) {
    forall j :: 0 <= j < |t| && t[j].Added? ==> Done(t[j].child) !in t[..j]
  }

  predicate OfParent(e: Event, p: nat) { (e.Joined? || e.Queued?) && e.parent == p }

  /** When p is queued, and again when it is joined, every child p added so far has ended. */
  ghost predicate AfterChildren(t: seq<Event>) {
    forall i, j :: 0 <= j < i < |t| && t[j].Added? && OfParent(t[i], t[j].parent) ==> Done(t[j].child) in t[..i]
  }

  ghost predicate Ordered(t: seq<Event>) { DoneOnce(t) && AddedFirst(t) && AfterChildren(t) }

  /** How many more times p was queued than joined. */
  function Owed(t: seq<Event>, p: nat): int {
    if t == [] then 0
    else
      var e := t[|t| - 1];
      Owed(t[..|t| - 1], p) + (if e == Queued(p) then 1 else if e == Joined(p) then -1 else 0)
  }

  lemma OwedAppend(t: seq<Event>, e: Event, p: nat)
    ensures Owed(t + [e], p) == Owed(t, p) + (if e == Queued(p) then 1 else if e == Joined(p) then -1 else 0)
  {}

  // ---------- The invariant that ties the history to the pools ----------

  predicate Live(k: Kernel, c: int) {
    0 <= c < |k.cos| && k.cos[c].state != Idle
  }

  /** c is a live child with serial ch of a parent with serial p. */
  predicate OutstandingAt(k: Kernel, c: int, p: nat, ch: nat) {
    Live(k, c) && IsChild(k, c) && k.cos[c].serial == ch
    && var q := k.batchs[k.cos[c].relateBid].parentCid; 0 <= q < |k.cos| && k.cos[q].serial == p
  }

  /** c has been queued and has not finished its BatchRun. */
  predicate DueAt(k: Kernel, c: int) {
    Live(k, c) && (c in Pending(k) || (c == k.slave && k.cos[c].call == InBatchRun))
  }

  ghost predicate Serials(k: Kernel) {
    && (forall c :: Live(k, c) ==> k.cos[c].serial < k.nextSerial && Done(k.cos[c].serial) !in k.trace)
    && (forall c, d :: Live(k, c) && Live(k, d) && c != d ==> k.cos[c].serial != k.cos[d].serial)
    && (forall e :: e in k.trace && e.Done? ==> e.serial < k.nextSerial)
    && (forall e :: e in k.trace && e.Added? ==> e.child < k.nextSerial)
  }

  ghost predicate Accounted(k: Kernel) {
    forall e :: e in k.trace && e.Added? ==> Done(e.child) in k.trace || exists c :: OutstandingAt(k, c, e.parent, e.child)
  }

  ghost predicate OwedRight(k: Kernel) {
    forall p: nat :: Owed(k.trace, p) == if exists c :: DueAt(k, c) && k.cos[c].serial == p then 1 else 0
  }

  ghost predicate TraceInv(k: Kernel) {
    Serials(k) && Accounted(k) && OwedRight(k)
    && Ordered(k.trace)
  }

  // ---------- Steps that add nothing to the history ----------

  ghost predicate SameHistory(k: Kernel, r: Kernel) {
    && r.trace == k.trace && r.nextSerial == k.nextSerial && |r.cos| == |k.cos|
    && (forall c :: Live(r, c) <==> Live(k, c))
    && (forall c :: Live(k, c) ==> r.cos[c].serial == k.cos[c].serial)
    && (forall c, p, ch :: OutstandingAt(k, c, p, ch) ==> OutstandingAt(r, c, p, ch))
    && (forall c :: DueAt(r, c) <==> DueAt(k, c))
  }

  lemma SameHistoryInv(k: Kernel, r: Kernel)
    requires TraceInv(k) && SameHistory(k, r)
    ensures TraceInv(r)
  {}

  lemma QuietHistory(k: Kernel, r: Kernel, s: int)
    requires Quiet(k, r, s) && CoInv(k, s) && CoInv(r, s) && (k.slave == INVALID ==> s !in Pending(k))
    ensures SameHistory(k, r)
  {}

  lemma OpensHistory(k: Kernel, r: Kernel, s: int, b: int)
    requires Opens(k, r, s, b)
    ensures SameHistory(k, r)
  {}

  lemma BlocksHistory(k: Kernel, r: Kernel, s: int, b: int)
    requires Blocks(k, r, s, b)
    ensures SameHistory(k, r)
  {}

  lemma WakesHistory(k: Kernel, r: Kernel, p: int, b: int)
    requires Wakes(k, r, p, b) && k.cos[p].call == InBatchRun
    ensures SameHistory(k, r)
  {
    WakesPending(k, r, p, b);
  }

  // ---------- BatchAdd ----------

  ghost predicate AddsEvent(k: Kernel, r: Kernel, s: int, slot: int, b: int) {
    && Adds(k, r, s, slot, b) && CoInv(k, s) && slot !in Pending(k)
    && r.trace == k.trace + [Added(k.cos[s].serial, k.nextSerial)]
    && (forall x :: 0 <= x < |k.batchs| && k.batchs[x].state != Idle ==> k.batchs[x].parentCid != slot)
    && (forall c :: IsChild(k, c) && k.cos[c].state != Idle ==> k.batchs[k.cos[c].relateBid].state != Idle)
  }

  lemma AddsSerials(k: Kernel, r: Kernel, s: int, slot: int, b: int)
    requires AddsEvent(k, r, s, slot, b) && Serials(k)
    ensures Serials(r)
  {}

  lemma AddsAccounted(k: Kernel, r: Kernel, s: int, slot: int, b: int)
    requires AddsEvent(k, r, s, slot, b) && Accounted(k)
    ensures Accounted(r)
  {
    assert forall e :: e in r.trace <==> e in k.trace || e == Added(k.cos[s].serial, k.nextSerial);
    assert OutstandingAt(r, slot, k.cos[s].serial, k.nextSerial);
    forall e | e in r.trace && e.Added?
      ensures Done(e.child) in r.trace || exists c :: OutstandingAt(r, c, e.parent, e.child)
    {
      if e in k.trace && Done(e.child) !in k.trace {
        var c :| OutstandingAt(k, c, e.parent, e.child);
        assert OutstandingAt(r, c, e.parent, e.child);
      }
    }
  }

  lemma AddsOwed(k: Kernel, r: Kernel, s: int, slot: int, b: int)
    requires AddsEvent(k, r, s, slot, b) && OwedRight(k)
    ensures OwedRight(r)
  {
    assert Pending(r) == Pending(k);
    assert forall c :: DueAt(r, c) <==> DueAt(k, c);
    forall p: nat ensures Owed(r.trace, p) == Owed(k.trace, p) {
      OwedAppend(k.trace, Added(k.cos[s].serial, k.nextSerial), p);
    }
    assert forall c :: DueAt(k, c) ==> r.cos[c].serial == k.cos[c].serial;
  }

  lemma AddsOrder(t: seq<Event>, p: nat, ch: nat)
    requires Ordered(t) && Done(ch) !in t
    ensures var r := t + [Added(p, ch)]; Ordered(r)
  {
    var r := t + [Added(p, ch)];
    assert forall j :: 0 <= j <= |t| ==> r[..j] == t[..j];
    assert t[..|t|] == t;
  }

  lemma AddsTrace(k: Kernel, r: Kernel, s: int, slot: int, b: int)
    requires AddsEvent(k, r, s, slot, b) && TraceInv(k)
    ensures TraceInv(r)
  {
    AddsSerials(k, r, s, slot, b);
    AddsAccounted(k, r, s, slot, b);
    AddsOwed(k, r, s, slot, b);
    assert Done(k.nextSerial) !in k.trace;
    AddsOrder(k.trace, k.cos[s].serial, k.nextSerial);
  }

  // ---------- The return from BatchRun ----------

  ghost predicate JoinsEvent(k: Kernel, r: Kernel, s: int, b: int) {
    && Joins(k, r, s, b)
    && r.trace == k.trace + [Joined(k.cos[s].serial)]
    && s !in Pending(k)
    && (forall c :: Live(k, c) && c != s ==> k.cos[c].relateBid != b)
    && (forall c :: Live(k, c) && IsChild(k, c) ==> Live(k, k.batchs[k.cos[c].relateBid].parentCid))
    && (forall c :: Live(k, c) && IsChild(k, c) ==> k.cos[k.batchs[k.cos[c].relateBid].parentCid].relateBid == k.cos[c].relateBid)
  }

  lemma JoinsAccounted(k: Kernel, r: Kernel, s: int, b: int)
    requires JoinsEvent(k, r, s, b) && Accounted(k)
    ensures Accounted(r)
  {
    assert forall e :: e in r.trace <==> e in k.trace || e == Joined(k.cos[s].serial);
    forall e | e in r.trace && e.Added?
      ensures Done(e.child) in r.trace || exists c :: OutstandingAt(r, c, e.parent, e.child)
    {
      if Done(e.child) !in k.trace {
        var c :| OutstandingAt(k, c, e.parent, e.child);
        assert OutstandingAt(r, c, e.parent, e.child);
      }
    }
  }

  lemma JoinsSerials(k: Kernel, r: Kernel, s: int, b: int)
    requires JoinsEvent(k, r, s, b) && Serials(k)
    ensures Serials(r)
  {}

  lemma JoinsOwed(k: Kernel, r: Kernel, s: int, b: int)
    requires JoinsEvent(k, r, s, b) && OwedRight(k) && Serials(k)
    ensures OwedRight(r)
  {
    assert Pending(r) == Pending(k);
    assert DueAt(k, s);
    assert forall c :: DueAt(r, c) <==> DueAt(k, c) && c != s;
    forall p: nat
      ensures Owed(r.trace, p) == if exists c :: DueAt(r, c) && r.cos[c].serial == p then 1 else 0
    {
      OwedAppend(k.trace, Joined(k.cos[s].serial), p);
      assert forall c :: Live(k, c) ==> r.cos[c].serial == k.cos[c].serial;
    }
  }

  /** Nothing the joining parent added is still outstanding. */
  lemma NothingOutstanding(k: Kernel, r: Kernel, s: int, b: int, c: int, ch: nat)
    requires JoinsEvent(k, r, s, b) && Serials(k)
    ensures !OutstandingAt(k, c, k.cos[s].serial, ch)
  {}

  lemma ParentOrder(t: seq<Event>, e: Event, p: nat)
    requires Ordered(t) && OfParent(e, p)
    requires forall a :: a in t && a.Added? && a.parent == p ==> Done(a.child) in t
    ensures Ordered(t + [e])
  {
    var r := t + [e];
    assert forall j :: 0 <= j <= |t| ==> r[..j] == t[..j];
    assert t[..|t|] == t;
  }

  lemma JoinsTrace(k: Kernel, r: Kernel, s: int, b: int)
    requires JoinsEvent(k, r, s, b) && TraceInv(k)
    ensures TraceInv(r)
  {
    JoinsSerials(k, r, s, b);
    JoinsAccounted(k, r, s, b);
    JoinsOwed(k, r, s, b);
    forall e | e in k.trace && e.Added? && e.parent == k.cos[s].serial ensures Done(e.child) in k.trace {
      forall c ensures !OutstandingAt(k, c, e.parent, e.child) { NothingOutstanding(k, r, s, b, c, e.child); }
    }
    ParentOrder(k.trace, Joined(k.cos[s].serial), k.cos[s].serial);
  }

  // ---------- The end of a coroutine ----------

  predicate Unfinished(x: Batch, c: int) { c in x.childFinish && !x.childFinish[c] }

  /** s ends, in a state whose batches and links are in order; its parent is queued if s was the last child. */
  ghost predicate EndsEvent(k: Kernel, r: Kernel, s: int, b: int) {
    && Ends(k, r, s, b) && k.finishPos <= |k.finishList| && s !in Pending(k)
    && (b != INVALID ==> Live(k, k.batchs[b].parentCid) && k.batchs[b].parentCid !in Pending(k))
    && (forall c :: Live(k, c) && IsChild(k, c) ==> k.batchs[k.cos[c].relateBid].parentCid != s)
    && (forall c :: Live(k, c) && IsChild(k, c) ==>
          Live(k, k.batchs[k.cos[c].relateBid].parentCid)
          && k.cos[k.batchs[k.cos[c].relateBid].parentCid].relateBid == k.cos[c].relateBid)
    && (forall c :: Live(k, c) && IsChild(k, c) ==> Unfinished(k.batchs[k.cos[c].relateBid], c))
    && r.trace == k.trace + [Done(k.cos[s].serial)]
                  + (if |r.finishList| > |k.finishList| then [Queued(k.cos[k.batchs[b].parentCid].serial)] else [])
  }

  lemma EndsSerials(k: Kernel, r: Kernel, s: int, b: int)
    requires EndsEvent(k, r, s, b) && Serials(k)
    ensures Serials(r)
  {}

  lemma EndsAccounted(k: Kernel, r: Kernel, s: int, b: int)
    requires EndsEvent(k, r, s, b) && Accounted(k)
    ensures Accounted(r)
  {
    assert forall e :: e in r.trace ==> e in k.trace || e == Done(k.cos[s].serial) || e.Queued?;
    assert forall e :: e in k.trace ==> e in r.trace;
    assert Done(k.cos[s].serial) in r.trace;
    forall e | e in r.trace && e.Added?
      ensures Done(e.child) in r.trace || exists c :: OutstandingAt(r, c, e.parent, e.child)
    {
      if Done(e.child) !in k.trace {
        var c :| OutstandingAt(k, c, e.parent, e.child);
        if c != s { assert OutstandingAt(r, c, e.parent, e.child); }
      }
    }
  }

  lemma EndsOwed(k: Kernel, r: Kernel, s: int, b: int)
    requires EndsEvent(k, r, s, b) && OwedRight(k) && Serials(k)
    ensures OwedRight(r)
  {
    var queued := |r.finishList| > |k.finishList|;
    assert Pending(r) == Pending(k) + (if queued then [k.batchs[b].parentCid] else []);
    assert forall c :: DueAt(r, c) <==> DueAt(k, c) || (queued && c == k.batchs[b].parentCid);
    assert forall c :: Live(k, c) ==> r.cos[c].serial == k.cos[c].serial;
    forall p: nat
      ensures Owed(r.trace, p) == if exists c :: DueAt(r, c) && r.cos[c].serial == p then 1 else 0
    {
      var t := k.trace + [Done(k.cos[s].serial)];
      OwedAppend(k.trace, Done(k.cos[s].serial), p);
      if queued {
        OwedAppend(t, Queued(k.cos[k.batchs[b].parentCid].serial), p);
        assert DueAt(r, k.batchs[b].parentCid);
      } else {
        assert r.trace == t;
      }
    }
  }

  lemma DoneOrder(t: seq<Event>, ch: nat)
    requires Ordered(t) && Done(ch) !in t
    ensures Ordered(t + [Done(ch)])
  {
    var r := t + [Done(ch)];
    assert forall j :: 0 <= j <= |t| ==> r[..j] == t[..j];
  }

  /** A parent that s makes due has no child left. */
  lemma LastChild(k: Kernel, r: Kernel, s: int, b: int, c: int, ch: nat)
    requires EndsEvent(k, r, s, b) && Serials(r) && |r.finishList| > |k.finishList|
    ensures !OutstandingAt(r, c, k.cos[k.batchs[b].parentCid].serial, ch)
  {
    var p := k.batchs[b].parentCid;
    assert Live(r, p) && r.cos[p].serial == k.cos[p].serial;
    assert Live(k, s) && IsChild(k, s) && k.cos[p].relateBid == b;
    assert forall d :: Live(k, d) && IsChild(k, d) && k.cos[d].relateBid == b && d != s ==> Unfinished(r.batchs[b], d);
  }

  lemma EndsTrace(k: Kernel, r: Kernel, s: int, b: int)
    requires EndsEvent(k, r, s, b) && TraceInv(k)
    ensures TraceInv(r)
  {
    EndsSerials(k, r, s, b);
    EndsAccounted(k, r, s, b);
    EndsOwed(k, r, s, b);
    assert Live(k, s);
    var t := k.trace + [Done(k.cos[s].serial)];
    DoneOrder(k.trace, k.cos[s].serial);
    if |r.finishList| > |k.finishList| {
      var p := k.cos[k.batchs[b].parentCid].serial;
      forall e | e in t && e.Added? && e.parent == p ensures Done(e.child) in t {
        assert e in r.trace;
        forall c ensures !OutstandingAt(r, c, p, e.child) { LastChild(k, r, s, b, c, e.child); }
        assert Done(e.child) in r.trace;
      }
      ParentOrder(t, Queued(p), p);
    } else {
      assert r.trace == t;
    }
  }

  // ---------- Every step of every run ----------

  lemma Links(k: Kernel)
    requires Inv(k)
    ensures forall x :: 0 <= x < |k.batchs| && k.batchs[x].state != Idle ==> Live(k, k.batchs[x].parentCid)
    ensures forall c :: Live(k, c) && IsChild(k, c) ==> k.batchs[k.cos[c].relateBid].state != Idle
    ensures forall c :: Live(k, c) && IsChild(k, c) ==>
              Live(k, k.batchs[k.cos[c].relateBid].parentCid)
              && k.cos[k.batchs[k.cos[c].relateBid].parentCid].relateBid == k.cos[c].relateBid
    ensures forall c :: Live(k, c) && IsChild(k, c) ==> Unfinished(k.batchs[k.cos[c].relateBid], c)
    ensures k.slave !in Pending(k)
  {
    forall x | 0 <= x < |k.batchs| && k.batchs[x].state != Idle ensures Live(k, k.batchs[x].parentCid) {
      assert BatchInv(k, x);
    }
    forall c | Live(k, c) && IsChild(k, c)
      ensures k.batchs[k.cos[c].relateBid].state != Idle
      ensures Live(k, k.batchs[k.cos[c].relateBid].parentCid)
              && k.cos[k.batchs[k.cos[c].relateBid].parentCid].relateBid == k.cos[c].relateBid
      ensures Unfinished(k.batchs[k.cos[c].relateBid], c)
    {
      assert CoInv(k, c);
      assert BatchInv(k, k.cos[c].relateBid);
    }
    if 0 <= k.slave < |k.cos| { assert CoInv(k, k.slave); }
  }

  lemma AddTrace(k: Kernel)
    requires Inv(k) && TraceInv(k) && StepSafe(k) && AddsChild(k)
    ensures TraceInv(Step(k))
  {
    AddReady(k);
    Links(k);
    assert CoInv(k, k.slave);
    AddsTrace(k, Step(k), k.slave, IdleSlot(k.cos), Self(k).relateBid);
  }

  lemma JoinTrace(k: Kernel)
    requires Inv(k) && TraceInv(k) && StepSafe(k) && Self(k).call == InBatchRun
    ensures TraceInv(Step(k))
  {
    JoinReady(k);
    Links(k);
    JoinsTrace(k, Step(k), k.slave, Self(k).relateBid);
  }

  /** A batch with an unfinished child has not queued its parent. */
  lemma NotYetQueued(k: Kernel, c: int)
    requires Inv(k) && Live(k, c) && IsChild(k, c)
    ensures k.batchs[k.cos[c].relateBid].parentCid !in Pending(k)
  {
    assert CoInv(k, c);
    assert BatchInv(k, k.cos[c].relateBid);
    assert !AllDone(k.batchs[k.cos[c].relateBid].childFinish);
  }

  lemma EndTrace(k: Kernel)
    requires Inv(k) && TraceInv(k) && StepSafe(k) && Self(k).call == NoCall && Self(k).prog == End
    ensures TraceInv(Step(k))
  {
    var s, b, r := k.slave, Self(k).relateBid, Step(k);
    EndReady(k);
    Links(k);
    if b != INVALID { NotYetQueued(k, s); }
    assert CoInv(k, s);
    assert EndsEvent(k, r, s, b);
    EndsTrace(k, r, s, b);
  }

  lemma BatchRunTrace(k: Kernel)
    requires Inv(k) && TraceInv(k) && Running(k) && StepSafe(k) && Self(k).call == NoCall && Self(k).prog.BatchRun?
    ensures TraceInv(Step(k))
  {
    assert CoInv(k, k.slave);
    BlocksHistory(k, Step(k), k.slave, Self(k).relateBid);
    SameHistoryInv(k, Step(k));
  }

  lemma QuietTrace(k: Kernel, r: Kernel)
    requires Inv(k) && TraceInv(k) && Quiet(k, r, k.slave) && Inv(r)
    ensures TraceInv(r)
  {
    var s := k.slave;
    assert CoInv(k, s) && CoInv(r, s);
    QuietHistory(k, r, s);
    SameHistoryInv(k, r);
  }

  lemma BatchCreateTrace(k: Kernel)
    requires Inv(k) && TraceInv(k) && Running(k) && StepSafe(k) && Self(k).call == NoCall && Self(k).prog.BatchCreate?
    ensures TraceInv(Step(k))
  {
    if IdleBatch(k.batchs) == INVALID {
      BatchCreateNone(k);
      QuietTrace(k, Step(k));
    } else {
      BatchCreateOpens(k);
      OpensHistory(k, Step(k), k.slave, IdleBatch(k.batchs));
      SameHistoryInv(k, Step(k));
    }
  }

  lemma StepTrace(k: Kernel)
    requires Inv(k) && TraceInv(k) && Running(k) && StepSafe(k)
    ensures TraceInv(Step(k))
  {
    StepInv(k);
    assert CoInv(k, k.slave);
    var r := Step(k);
    match Self(k).call
    case InBatchRun => JoinTrace(k);
    case InLock => LockInv(k); QuietTrace(k, r);
    case NoCall =>
      match Self(k).prog
      case End => EndTrace(k);
      case Yield(_) => YieldInv(k); QuietTrace(k, r);
      case Lock(_) => LockInv(k); QuietTrace(k, r);
      case UnLock(_) => UnLockInv(k); QuietTrace(k, r);
      case TryLock(_, _) => TryLockInv(k); QuietTrace(k, r);
      case BatchCreate(_, _) => BatchCreateTrace(k);
      case BatchAdd(_, _, _) => if AddsChild(k) { AddTrace(k); } else { AddFull(k); QuietTrace(k, r); }
      case BatchRun(_) => BatchRunTrace(k);
  }

  lemma ResumeTrace(k: Kernel, c: int)
    requires Paused(k) && TraceInv(k) && Resumable(k, c)
    ensures Inv(Resume(k, c)) && Tops(Resume(k, c)) == Tops(k) && TraceInv(Resume(k, c))
  {
    ResumeInv(k, c);
    assert CoInv(k, c) && CoInv(Resume(k, c), c);
    QuietHistory(k, Resume(k, c), c);
    SameHistoryInv(k, Resume(k, c));
  }

  lemma PickTrace(k: Kernel)
    requires Paused(k) && TraceInv(k) && HasPick(k.mutex)
    ensures 0 <= k.mutex.queue[0] < |k.cos| && Inv(PickResume(k)) && Tops(PickResume(k)) == Tops(k)
    ensures TraceInv(PickResume(k))
  {
    PickInv(k);
    var c := k.mutex.queue[0];
    assert CoInv(k, c) && CoInv(PickResume(k), c);
    QuietHistory(k, PickResume(k), c);
    SameHistoryInv(k, PickResume(k));
  }

  lemma ParentTrace(k: Kernel)
    requires Paused(k) && TraceInv(k) && k.finishPos < |k.finishList|
    ensures ResumeSafe(k, k.finishList[k.finishPos]) && Inv(ResumeParent(k))
    ensures Tops(ResumeParent(k)) == Tops(k) && TraceInv(ResumeParent(k))
  {
    ResumeParentInv(k);
    var p := k.finishList[k.finishPos];
    assert Pending(k)[0] == p;
    assert p in Pending(k);
    assert CoInv(k, p);
    WakesHistory(k, ResumeParent(k), p, k.cos[p].relateBid);
    SameHistoryInv(k, ResumeParent(k));
  }

  lemma ClearTrace(k: Kernel)
    requires Paused(k) && TraceInv(k) && k.finishPos >= |k.finishList|
    ensures TraceInv(k.(finishList := [], finishPos := 0))
  {
    var r := k.(finishList := [], finishPos := 0);
    assert Pending(r) == Pending(k) == [];
    assert SameHistory(k, r);
    SameHistoryInv(k, r);
  }

  // ---------- Run keeps the history right ----------

  lemma {:induction false} RunSliceTrace(k: Kernel)
    requires Inv(k) && Within(k) && TraceInv(k) && Running(k)
    ensures TraceInv(RunSlice(k))
    decreases TotalWork(k)
  {
    StepInv(k);
    StepWork(k);
    StepTrace(k);
    WithinKept(k, Step(k));
    if Step(k).slave != INVALID { RunSliceTrace(Step(k)); }
  }

  lemma ResumeSliceTrace(k: Kernel, c: int)
    requires AtMaster(k) && TraceInv(k) && Resumable(k, c)
    ensures TraceInv(ResumeSlice(k, c))
  {
    ResumeTrace(k, c);
    RunSliceTrace(Resume(k, c));
  }

  lemma {:induction false} PoolPassTrace(k: Kernel, i: nat)
    requires AtMaster(k) && TraceInv(k) && i <= |k.cos|
    ensures TraceInv(PoolPass(k, i))
    decreases |k.cos| - i
  {
    if i == |k.cos| {
    } else {
      if Resumable(k, i) {
        ResumeSliceTrace(k, i);
        PoolPassTrace(ResumeSlice(k, i), i + 1);
      } else {
        PoolPassTrace(k, i + 1);
      }
    }
  }

  lemma ParentSliceTrace(k: Kernel)
    requires AtMaster(k) && TraceInv(k) && k.finishPos < |k.finishList|
    ensures TraceInv(ParentSlice(k))
  {
    ParentTrace(k);
    RunSliceTrace(ResumeParent(k));
  }

  lemma {:induction false} FinishPassTrace(k: Kernel)
    requires AtMaster(k) && TraceInv(k)
    ensures TraceInv(FinishPass(k))
    decreases TotalWork(k)
  {
    if k.finishPos < |k.finishList| {
      ParentSliceTrace(k);
      FinishPassTrace(ParentSlice(k));
    } else {
      ClearTrace(k);
    }
  }

  lemma MutexPassTrace(k: Kernel)
    requires AtMaster(k) && TraceInv(k)
    ensures TraceInv(MutexPass(k))
  {
    if HasPick(k.mutex) {
      PickTrace(k);
      RunSliceTrace(PickResume(k));
    }
  }

  lemma PassTrace(k: Kernel)
    requires AtMaster(k) && TraceInv(k)
    ensures TraceInv(Pass(k))
  {
    PoolPassTrace(k, 0);
    FinishPassTrace(PoolPass(k, 0));
    MutexPassTrace(FinishPass(PoolPass(k, 0)));
  }

  lemma {:induction false} RunTrace(k: Kernel)
    requires AtMaster(k) && TraceInv(k) && k.finishPos == 0
    ensures TraceInv(RunAll(k))
    decreases TotalWork(k)
  {
    if k.notIdle > 0 {
      PassProgress(k);
      if !Stuck(k) {
        PassTrace(k);
        RunTrace(Pass(k));
      }
    }
  }

  lemma InitTrace(n: nat, m: nat)
    requires n > 0 && (m + 1) * n <= MAX_COROUTINE
    ensures TraceInv(Init(n, m))
  {}

  // ---------- The master creates a top-level coroutine ----------

  ghost predicate Creates(k: Kernel, r: Kernel, slot: int, prog: Prog) {
    && 0 <= slot < |k.cos| && k.slave == INVALID && k.cos[slot].state == Idle && !Holds(k, slot) && slot !in Pending(k)
    && r == k.(cos := k.cos[slot := Coroutine(Ready, INVALID, prog, NoCall, k.nextSerial)],
               notIdle := k.notIdle + 1, nextSerial := k.nextSerial + 1)
    && Wf(prog, k.m, Closed, false, false)
    && (forall x :: 0 <= x < |k.batchs| && k.batchs[x].state != Idle ==> k.batchs[x].parentCid != slot)
    && (forall c :: Live(k, c) && IsChild(k, c) ==> k.batchs[k.cos[c].relateBid].state != Idle)
  }

  lemma CreatesCo(k: Kernel, r: Kernel, slot: int, prog: Prog, c: int)
    requires Creates(k, r, slot, prog) && 0 <= c < |k.cos| && CoInv(k, c)
    ensures CoInv(r, c)
  {}

  lemma CreatesBatch(k: Kernel, r: Kernel, slot: int, prog: Prog, x: int)
    requires Creates(k, r, slot, prog) && 0 <= x < |k.batchs| && BatchInv(k, x)
    ensures BatchInv(r, x)
  {}

  lemma CreatesSize(k: Kernel, r: Kernel, slot: int, prog: Prog)
    requires Creates(k, r, slot, prog) && SizeInv(k)
    ensures SizeInv(r) && Tops(r) == Tops(k) + {slot}
  {
    CountLiveUpdate(k.cos, slot, r.cos[slot]);
    assert forall c :: IsTop(r, c) <==> IsTop(k, c) || c == slot;
    assert Tops(r) == Tops(k) + {slot};
  }

  lemma CreatesRest(k: Kernel, r: Kernel, slot: int, prog: Prog)
    requires Creates(k, r, slot, prog) && FinishInv(k) && MutexInv(k)
    ensures FinishInv(r) && MutexInv(r)
  {}

  lemma CreatesTrace(k: Kernel, r: Kernel, slot: int, prog: Prog)
    requires Creates(k, r, slot, prog) && TraceInv(k)
    ensures TraceInv(r)
  {
    assert Pending(r) == Pending(k);
    assert forall c :: Live(r, c) <==> Live(k, c) || c == slot;
    assert Done(k.nextSerial) !in k.trace;
    assert forall c :: DueAt(r, c) <==> DueAt(k, c);
    forall e | e in r.trace && e.Added?
      ensures Done(e.child) in r.trace || exists c :: OutstandingAt(r, c, e.parent, e.child)
    {
      if Done(e.child) !in k.trace {
        var c :| OutstandingAt(k, c, e.parent, e.child);
        assert OutstandingAt(r, c, e.parent, e.child);
      }
    }
  }

  lemma CreatesDead(k: Kernel, r: Kernel, slot: int, prog: Prog)
    requires Creates(k, r, slot, prog) && CoInv(k, slot)
    ensures forall c, p :: KidWants(r, c, p) <==> KidWants(k, c, p)
    ensures Dead(r) <==> Dead(k)
  {
    if Dead(k) {
      var c :| KidWants(k, c, k.mutex.hold);
      assert KidWants(r, c, k.mutex.hold);
    }
  }

  lemma CreatesFree(k: Kernel, r: Kernel, slot: int, prog: Prog)
    requires Creates(k, r, slot, prog) && CoInv(k, slot) && FreeInv(k) && FreeAtJoin(prog, Closed, false, false)
    ensures FreeInv(r)
  {
    CreatesDead(k, r, slot, prog);
    forall c | 0 <= c < |r.cos| ensures FreeAt(r, c) {
      assert FreeAt(k, c);
      if c != slot { assert PhaseOf(r, c) == PhaseOf(k, c); }
    }
  }

  /** CoroutineCreate answers kInvalidCid exactly when no slot is idle, and then changes nothing. */
  lemma CreateFailsIff(k: Kernel, prog: Prog, relateBid: int)
    ensures CreateStep(k, prog, relateBid).1 == INVALID <==> forall c :: 0 <= c < |k.cos| ==> k.cos[c].state != Idle
    ensures CreateStep(k, prog, relateBid).1 == INVALID ==> CreateStep(k, prog, relateBid).0 == k
  {
    IdleSlotSpec(k.cos, 0);
  }

  lemma CreateReady(k: Kernel, prog: Prog)
    requires Paused(k) && Wf(prog, k.m, Closed, false, false) && IdleSlot(k.cos) != INVALID
    ensures Creates(k, CreateStep(k, prog, INVALID).0, IdleSlot(k.cos), prog)
    ensures CreateStep(k, prog, INVALID).1 == IdleSlot(k.cos) && CoInv(k, IdleSlot(k.cos))
  {
    IdleSlotSpec(k.cos, 0);
    Links(k);
    assert CoInv(k, IdleSlot(k.cos));
  }

  /** CoroutineCreate called by the master keeps the invariants whatever it answers; within the allowance it succeeds. */
  lemma MasterCreate(k: Kernel, prog: Prog)
    requires Paused(k) && TraceInv(k) && Wf(prog, k.m, Closed, false, false)
    ensures var r := CreateStep(k, prog, INVALID).0; Paused(r) && TraceInv(r)
    ensures |Tops(k)| < k.n ==> CreateStep(k, prog, INVALID).1 != INVALID && Within(CreateStep(k, prog, INVALID).0)
  {
    if |Tops(k)| < k.n { TopSlotAvailable(k); }
    var r, slot := CreateStep(k, prog, INVALID).0, IdleSlot(k.cos);
    if slot == INVALID {
      CreateFailsIff(k, prog, INVALID);
    } else {
      CreateReady(k, prog);
      forall c | 0 <= c < |r.cos| ensures CoInv(r, c) { CreatesCo(k, r, slot, prog, c); }
      forall x | 0 <= x < |r.batchs| ensures BatchInv(r, x) { CreatesBatch(k, r, slot, prog, x); }
      CreatesSize(k, r, slot, prog);
      CreatesRest(k, r, slot, prog);
      CreatesTrace(k, r, slot, prog);
    }
  }

  /** Every child ever added ended, once, between being added and its parent's join, and every queued parent was joined. */
  ghost predicate AllJoined(t: seq<Event>) {
    && Ordered(t) && (forall e :: e in t && e.Added? ==> Done(e.child) in t) && (forall p: nat :: Owed(t, p) == 0)
  }

  lemma ForkJoin(k: Kernel)
    requires AtMaster(k) && TraceInv(k) && k.finishPos == 0
    ensures Ordered(RunAll(k).trace)
    ensures !Stuck(RunAll(k)) ==> AllJoined(RunAll(k).trace)
  {
    RunTrace(k);
    if !Stuck(RunAll(k)) { AllIdle(RunAll(k)); }
  }

  // ---------- Any master ----------

  /** One atomic action: a step of the running coroutine, or what the master does between two coroutines. */
  datatype Action = Slave | Create(prog: Prog) | Wake(cid: int) | WakeParent | ClearList | WakeWaiter

  ghost predicate Enabled(k: Kernel, a: Action) {
    match a
    case Slave => Running(k) && StepSafe(k)
    case Create(prog) => k.slave == INVALID && Wf(prog, k.m, Closed, false, false)
    case Wake(c) => k.slave == INVALID && Resumable(k, c)
    case WakeParent => k.slave == INVALID && k.finishPos < |k.finishList| && 0 <= k.finishList[k.finishPos] < |k.cos|
    case ClearList => k.slave == INVALID && k.finishPos >= |k.finishList|
    case WakeWaiter => k.slave == INVALID && HasPick(k.mutex) && 0 <= k.mutex.queue[0] < |k.cos|
  }

  /** One atomic action of any code that drives the scheduler: the master may resume in any order. */
  ghost function Next(k: Kernel, a: Action): Kernel
    requires Enabled(k, a)
  {
    match a
    case Slave => Step(k)
    case Create(prog) => CreateStep(k, prog, INVALID).0
    case Wake(c) => Resume(k, c)
    case WakeParent => ResumeParent(k)
    case ClearList => k.(finishList := [], finishPos := 0)
    case WakeWaiter => PickResume(k)
  }

  lemma NextInv(k: Kernel, a: Action)
    requires Inv(k) && TraceInv(k) && Enabled(k, a)
    ensures Inv(Next(k, a)) && TraceInv(Next(k, a))
  {
    match a
    case Slave => StepInv(k); StepTrace(k);
    case Create(prog) => MasterCreate(k, prog);
    case Wake(c) => ResumeTrace(k, c);
    case WakeParent => ParentTrace(k);
    case ClearList => ClearInv(k); ClearTrace(k);
    case WakeWaiter => PickTrace(k);
  }

  ghost predicate IsPath(run: seq<Kernel>, acts: seq<Action>) {
    |run| == |acts| + 1
    && forall j :: 0 <= j < |acts| ==> Enabled(run[j], acts[j]) && run[j + 1] == Next(run[j], acts[j])
  }

  ghost predicate IsRun(run: seq<Kernel>, acts: seq<Action>, n: nat, m: nat) {
    IsPath(run, acts) && run[0] == Init(n, m)
  }

  lemma {:induction false} Reachable(run: seq<Kernel>, acts: seq<Action>, n: nat, m: nat, i: nat)
    requires IsRun(run, acts, n, m) && i < |run| && n > 0 && (m + 1) * n <= MAX_COROUTINE
    ensures Inv(run[i]) && TraceInv(run[i])
  {
    if i == 0 {
      InitInv(n, m);
      InitTrace(n, m);
    } else {
      Reachable(run, acts, n, m, i - 1);
      NextInv(run[i - 1], acts[i - 1]);
    }
  }

  /** The master never creates a top-level coroutine while n of them are alive. */
  ghost predicate Allowed(run: seq<Kernel>, acts: seq<Action>, n: nat)
    requires |run| == |acts| + 1
  {
    forall j :: 0 <= j < |acts| && acts[j].Create? ==> |Tops(run[j])| < n
  }

  lemma NextWithin(k: Kernel, a: Action)
    requires Inv(k) && TraceInv(k) && Enabled(k, a) && Within(k) && (a.Create? ==> |Tops(k)| < k.n)
    ensures Within(Next(k, a))
  {
    match a
    case Slave => StepInv(k); WithinKept(k, Step(k));
    case Create(prog) => MasterCreate(k, prog);
    case Wake(c) => ResumeInv(k, c);
    case WakeParent => ResumeParentInv(k);
    case ClearList => ClearInv(k);
    case WakeWaiter => PickInv(k);
  }

  lemma SameLimits(k: Kernel, a: Action)
    requires Inv(k) && TraceInv(k) && Enabled(k, a)
    ensures Next(k, a).n == k.n
  {}

  lemma {:induction false} StaysWithin(run: seq<Kernel>, acts: seq<Action>, n: nat, m: nat, i: nat)
    requires IsRun(run, acts, n, m) && i < |run| && n > 0 && (m + 1) * n <= MAX_COROUTINE && Allowed(run, acts, n)
    ensures run[i].n == n && Within(run[i])
  {
    if i == 0 {
      InitInv(n, m);
    } else {
      StaysWithin(run, acts, n, m, i - 1);
      Reachable(run, acts, n, m, i - 1);
      SameLimits(run[i - 1], acts[i - 1]);
      NextWithin(run[i - 1], acts[i - 1]);
    }
  }

  /**
   In every state of every run of a fresh scheduler, whatever is created and in whatever order the
   coroutines are resumed: the next step trips an assertion exactly when it adds a child while every slot
   is taken, the next resumption of a queued parent or waiter trips none, and the history is right.
   */
  lemma EveryRun(run: seq<Kernel>, acts: seq<Action>, n: nat, m: nat, i: nat)
    requires IsRun(run, acts, n, m) && i < |run| && n > 0 && (m + 1) * n <= MAX_COROUTINE
    ensures var k := run[i];
            && (Running(k) ==> (StepSafe(k) <==> HasRoom(k)))
            && (k.slave == INVALID && k.finishPos < |k.finishList| ==> ResumeSafe(k, k.finishList[k.finishPos]))
            && (k.slave == INVALID && HasPick(k.mutex) ==> ResumeSafe(k, k.mutex.queue[0]))
            && Ordered(k.trace)
            && (forall p: nat :: 0 <= Owed(k.trace, p) <= 1)
  {
    Reachable(run, acts, n, m, i);
    var k := run[i];
    if Running(k) {
      StepInv(k);
    } else {
      if k.finishPos < |k.finishList| { ParentTrace(k); }
      if HasPick(k.mutex) { PickInv(k); }
    }
  }

  /**
   The capacity theorem: while at most n top-level coroutines are alive at a time, no step trips any
   assertion, BatchCreate always finds a batch, and so does CoroutineCreate a slot.
   */
  lemma Capacity(run: seq<Kernel>, acts: seq<Action>, n: nat, m: nat, i: nat)
    requires IsRun(run, acts, n, m) && i < |run| && n > 0 && (m + 1) * n <= MAX_COROUTINE && Allowed(run, acts, n)
    ensures var k := run[i];
            && (Running(k) ==> StepSafe(k))
            && (Running(k) && Self(k).call == NoCall && Self(k).prog.BatchCreate? ==> IdleBatch(k.batchs) != INVALID)
            && (|Tops(k)| < n ==> IdleSlot(k.cos) != INVALID)
  {
    Reachable(run, acts, n, m, i);
    StaysWithin(run, acts, n, m, i);
    var k := run[i];
    if Running(k) {
      StepInv(k);
      if Self(k).call == NoCall && Self(k).prog.BatchCreate? { BatchCreateInv(k); }
    }
    if |Tops(k)| < n { TopSlotAvailable(k); }
  }
}
