/** The CoRWLock struct and the scheduler's pass over it, updated in place, proved against the protocol. */
module RWLockObject {
  import opened Base
  import opened CoRWLock
  import opened RWLockProtocol

  lemma {:induction false} PopsConcat(a: seq<Event>, b: seq<Event>)
    ensures Pops(a + b) == Pops(a) + Pops(b)
  {
    if a == [] {
      assert a + b == b;
    } else {
      assert (a + b)[1..] == a[1..] + b;
      PopsConcat(a[1..], b);
    }
  }

  lemma PassEvents(p: Protocol, inner: seq<Event>)
    requires Enabled(p, PassStart) && Legal(Next(p, PassStart), inner)
    requires Enabled(Exec(Next(p, PassStart), inner), PassEnd)
    ensures var es := [PassStart] + inner + [PassEnd];
            Legal(p, es) && Exec(p, es) == Next(Exec(Next(p, PassStart), inner), PassEnd) && Pops(es) == Pops(inner)
  {
    var q := Next(p, PassStart);
    ExecConcat(q, inner, [PassEnd]);
    PopsConcat(inner, [PassEnd]);
    var es := [PassStart] + inner + [PassEnd];
    assert es[1..] == inner + [PassEnd];
  }

  lemma {:induction false} PopsNone(es: seq<Event>)
    requires PassPop !in es
    ensures Pops(es) == 0
  {
    if es != [] { PopsNone(es[1..]); }
  }

  lemma RemoveAllNext(kept: seq<Waiter>, rest: seq<Waiter>, w: Waiter)
    requires rest != []
    ensures kept + RemoveAll(rest, w) == (if rest[0] != w then kept + [rest[0]] else kept) + RemoveAll(rest[1..], w)
  {}

  class RWLockSchedule {
    var lockState: LockState
    var holdWriteCid: int
    var holdReadCidSet: set<int>
    var suspendList: seq<Waiter>
    var slaveCid: int
    // Which call each suspended coroutine is inside of; in the program this is its stack.
    var inCall: map<int, Kind>
    // History of the pass, read by no decision of the lock.
    var picked: bool
    var pass: bool
    var line: seq<Waiter>
    var woken: seq<Waiter>

    function P(): Protocol
      reads this
    {
      Protocol(RWLock(lockState, holdWriteCid, holdReadCidSet, suspendList), inCall, slaveCid, picked, pass, line, woken)
    }

    /** CoRWLockInit. */
    constructor ()
      ensures P() == START
    {
      lockState, holdWriteCid, holdReadCidSet, suspendList := UnLock, INVALID, {}, [];
      slaveCid, inCall, picked, pass, line, woken := INVALID, map[], false, false, [], [];
    }

    /** CoroutineYield from inside a lock call. */
    method YieldIn(kind: Kind)
      requires slaveCid >= 0
      modifies `inCall, `slaveCid, `picked
      ensures inCall == old(inCall)[old(slaveCid) := kind] && slaveCid == INVALID && !picked
    {
      inCall := inCall[slaveCid := kind];
      slaveCid, picked := INVALID, false;
    }

    method ReturnFromCall()
      modifies `inCall, `picked
      ensures inCall == old(inCall) - {slaveCid} && !picked
    {
      inCall := inCall - {slaveCid};
      picked := false;
    }

    /** One turn of the loop of CoRWLockWrLock. */
    method WrLockTurn()
      requires slaveCid >= 0 && AttemptSafe(P().lock, Write, slaveCid)
      modifies this
      ensures P() == Turn(old(P()), Write)
    {
      if lockState == UnLock {
        assert holdWriteCid == INVALID;
        lockState, holdWriteCid := WriteLock, slaveCid;
        ReturnFromCall();
        return;
      }
      assert lockState == WriteLock ==> holdWriteCid != slaveCid;
      if Waiter(Write, slaveCid) !in suspendList {
        suspendList := suspendList + [Waiter(Write, slaveCid)];
        line := line + [Waiter(Write, slaveCid)];
      }
      YieldIn(Write);
    }

    /** One turn of the loop of CoRWLockRdLock. */
    method RdLockTurn()
      requires slaveCid >= 0 && AttemptSafe(P().lock, Read, slaveCid)
      modifies this
      ensures P() == Turn(old(P()), Read)
    {
      if lockState == UnLock {
        assert holdReadCidSet == {};
        lockState, holdReadCidSet := ReadLock, holdReadCidSet + {slaveCid};
        ReturnFromCall();
        return;
      }
      if lockState == ReadLock {
        assert slaveCid !in holdReadCidSet;
        holdReadCidSet := holdReadCidSet + {slaveCid};
        ReturnFromCall();
        return;
      }
      if Waiter(Read, slaveCid) !in suspendList {
        suspendList := suspendList + [Waiter(Read, slaveCid)];
        line := line + [Waiter(Read, slaveCid)];
      }
      YieldIn(Read);
    }

    /** suspend_list.remove(w). */
    method RemoveWaiter(w: Waiter)
      modifies `suspendList
      ensures suspendList == RemoveAll(old(suspendList), w)
    {
      var rest, kept := suspendList, [];
      while rest != []
        invariant kept + RemoveAll(rest, w) == RemoveAll(old(suspendList), w)
        decreases |rest|
      {
        RemoveAllNext(kept, rest, w);
        if rest[0] != w { kept := kept + [rest[0]]; }
        rest := rest[1..];
      }
      assert kept + [] == kept;
      suspendList := kept;
    }

    method CoRWLockWrUnLock()
      requires WrUnLockSafe(P().lock, slaveCid)
      modifies this
      ensures P() == old(P()).(lock := WrUnLock(old(P()).lock, old(slaveCid)))
      ensures lockState == UnLock && holdWriteCid == INVALID && holdReadCidSet == {} && Holders(P().lock) == {}
      ensures forall w :: w in suspendList <==> w in old(suspendList) && w != Waiter(Write, slaveCid)
      ensures OncePerCid(old(suspendList)) ==> TakenOut(old(suspendList), Waiter(Write, slaveCid), suspendList)
    {
      lockState, holdWriteCid := UnLock, INVALID;
      if OncePerCid(suspendList) { RemoveAllTakesOut(suspendList, Waiter(Write, slaveCid)); }
      RemoveWaiter(Waiter(Write, slaveCid));
    }

    method CoRWLockRdUnLock()
      requires RdUnLockSafe(P().lock, slaveCid)
      modifies this
      ensures P() == old(P()).(lock := RdUnLock(old(P()).lock, old(slaveCid)))
    {
      holdReadCidSet := holdReadCidSet - {slaveCid};
      RemoveWaiter(Waiter(Read, slaveCid));
      if holdReadCidSet == {} { lockState := UnLock; }
    }

    /** The running coroutine makes the call e, or yields elsewhere. */
    method Do(e: Event)
      requires Inv(P()) && slaveCid >= 0 && Enabled(P(), e)
      modifies this
      ensures P() == Next(old(P()), e) && Inv(P())
    {
      NextInv(P(), e);
      match e
      case Call(k) => if k == Write { WrLockTurn(); } else { RdLockTurn(); }
      case Retry => if inCall[slaveCid] == Write { WrLockTurn(); } else { RdLockTurn(); }
      case CallWrUnLock => CoRWLockWrUnLock();
      case CallRdUnLock => CoRWLockRdUnLock();
      case Leave => slaveCid := INVALID;
    }

    /** A coroutine runs: whatever calls it makes, it comes back to the master by blocking or leaving. */
    method Slice(calls: seq<Event>) returns (ghost es: seq<Event>)
      requires Inv(P()) && slaveCid >= 0 && pass
      modifies this
      ensures Inv(P()) && AtMaster(P()) && Legal(old(P()), es) && P() == Exec(old(P()), es)
      ensures PassEnd !in es && PassPop !in es
    {
      ghost var p0 := P();
      es := [];
      var i := 0;
      while slaveCid != INVALID
        invariant Inv(P()) && 0 <= i <= |calls| && PassEnd !in es && PassPop !in es
        invariant Legal(p0, es) && P() == Exec(p0, es)
        decreases slaveCid != INVALID, slaveCid in inCall, |calls| - i
      {
        var e := Leave;
        if slaveCid in inCall {
          e := Retry;
        } else if i < |calls| {
          i := i + 1;
          if Enabled(P(), calls[i - 1]) { e := calls[i - 1]; }
        }
        ExecConcat(p0, es, [e]);
        es := es + [e];
        Do(e);
      }
    }

    /** Pops the front entry and resumes its coroutine. */
    method WakeFront(calls: seq<Event>) returns (ghost es: seq<Event>)
      requires Inv(P()) && AtMaster(P()) && pass && CanPop(P().lock)
      modifies this
      ensures Inv(P()) && AtMaster(P()) && pass && Legal(old(P()), es) && P() == Exec(old(P()), es)
      ensures PassEnd !in es && Rank(P()) + Pops(es) <= Rank(old(P())) && Pops(es) == 1
    {
      ghost var p0 := P();
      NextInv(p0, PassPop);
      var item := suspendList[0];
      suspendList := suspendList[1..];
      slaveCid, picked, woken := item.cid, true, woken + [item];
      assert P() == Next(p0, PassPop);
      ghost var more := Slice(calls);
      es := [PassPop] + more;
      assert es[1..] == more;
      PopsNone(more);
      PopsBounded(p0, es);
    }

    /** The inner loop of CoRWLockResume. */
    method PassLoop(script: seq<seq<Event>>) returns (ghost es: seq<Event>)
      requires Inv(P()) && AtMaster(P()) && pass
      modifies this
      ensures Inv(P()) && AtMaster(P()) && pass && Legal(old(P()), es) && P() == Exec(old(P()), es)
      ensures Pops(es) <= Rank(old(P())) && !CanPop(P().lock)
    {
      ghost var p0 := P();
      es := [];
      var turn := 0;
      while |suspendList| > 0 && (lockState == UnLock || lockState == ReadLock)
        invariant Inv(P()) && AtMaster(P()) && pass && Legal(p0, es) && P() == Exec(p0, es)
        invariant Pops(es) + Rank(P()) <= Rank(p0)
        decreases Rank(P())
      {
        if lockState == ReadLock && suspendList[0].kind != Read { break; }
        ghost var more := WakeFront(if turn < |script| then script[turn] else []);
        ExecConcat(p0, es, more);
        PopsConcat(es, more);
        es := es + more;
        turn := turn + 1;
      }
    }

    /**
     CoRWLockResume for this lock. script says what each woken coroutine does before it yields again;
     the loop ends for every script, after at most as many wake-ups as there were waiters.
     */
    method CoRWLockResume(script: seq<seq<Event>>) returns (ghost es: seq<Event>)
      requires Inv(P()) && AtMaster(P()) && !pass
      modifies this
      ensures Inv(P()) && AtMaster(P()) && !pass && Legal(old(P()), es) && P() == Exec(old(P()), es)
      ensures Pops(es) <= |old(suspendList)|
      ensures old(lockState) != UnLock ==> P() == old(P())
      ensures old(lockState) == UnLock ==>
        lockState == WriteLock || suspendList == [] || (lockState == ReadLock && suspendList[0].kind == Write)
    {
      es := [];
      if lockState == WriteLock || lockState == ReadLock { return; }
      NextInv(P(), PassStart);
      pass, line, woken := true, suspendList, [];
      ghost var inner := PassLoop(script);
      PassEvents(old(P()), inner);
      NextInv(P(), PassEnd);
      es := [PassStart] + inner + [PassEnd];
      pass := false;
    }
  }
}
