/** The state of one CoMutex and what each call does to it between two yields. */
module CoMutex {
  import opened Base

  datatype Mutex = Mutex(lock: bool, hold: int, queue: seq<int>)

  const FREE := Mutex(false, INVALID, [])

  /** One turn of the retry loop of CoMutexLock: either takes the lock or queues the caller once. */
  function LockAttempt(m: Mutex, c: int): Mutex {
    if !m.lock then Mutex(true, c, m.queue)
    else if c in m.queue then m
    else m.(queue := m.queue + [c])
  }

  function TryLock(m: Mutex, c: int): (Mutex, bool) {
    if !m.lock then (Mutex(true, c, m.queue), true) else (m, false)
  }

  function UnLock(m: Mutex, c: int): Mutex
    requires m.lock && m.hold == c
  {
    Mutex(false, INVALID, RemoveFirst(m.queue, c))
  }

  /** CoMutexResume visits a mutex: it wakes somebody only if the lock is free and the queue is not empty. */
  predicate HasPick(m: Mutex) {
    !m.lock && m.queue != []
  }

  function Pick(m: Mutex): (Mutex, int)
    requires HasPick(m)
  {
    (m.(queue := m.queue[1..]), m.queue[0])
  }
}

/** The CoMutex struct with its fields updated in place. */
module CoMutexObject {
  import opened Base
  import opened CoMutex

  class MutexObject {
    var lock: bool
    var holdCid: int
    var suspendCidList: seq<int>

    function M(): Mutex
      reads this
    {
      Mutex(lock, holdCid, suspendCidList)
    }

    /** CoMutexInit. */
    constructor ()
      ensures M() == FREE
    {
      lock, holdCid, suspendCidList := false, INVALID, [];
    }

    /** The body of the CoMutexLock loop before its yield; acquired means the call returns. */
    method Attempt(cid: int) returns (acquired: bool)
      requires lock ==> holdCid != cid
      modifies this
      ensures M() == LockAttempt(old(M()), cid) && acquired == !old(lock)
    {
      if !lock {
        lock, holdCid := true, cid;
        return true;
      }
      if cid !in suspendCidList {
        suspendCidList := suspendCidList + [cid];
      }
      return false;
    }

    method Try(cid: int) returns (acquired: bool)
      modifies this
      ensures (M(), acquired) == TryLock(old(M()), cid)
    {
      if !lock {
        lock, holdCid := true, cid;
        return true;
      }
      return false;
    }

    method Release(cid: int)
      requires lock && holdCid == cid
      modifies this
      ensures M() == UnLock(old(M()), cid)
    {
      lock, holdCid := false, INVALID;
      var i := 0;
      while i < |suspendCidList| && suspendCidList[i] != cid
        invariant 0 <= i <= |suspendCidList| && !lock && holdCid == INVALID && suspendCidList == old(suspendCidList)
        invariant cid !in suspendCidList[..i]
      {
        i := i + 1;
      }
      ghost var q := suspendCidList;
      assert q == q[..i] + q[i..];
      RemoveFirstConcat(q[..i], q[i..], cid);
      if i < |suspendCidList| {
        suspendCidList := suspendCidList[..i] + suspendCidList[i + 1..];
        assert q[i..][1..] == q[i + 1..];
      }
    }

    /** The part of CoMutexResume that chooses whom to wake. */
    method PopWaiter() returns (cid: int)
      modifies this
      ensures if HasPick(old(M())) then (M(), cid) == Pick(old(M())) else M() == old(M()) && cid == INVALID
    {
      cid := INVALID;
      if lock { return; }
      if |suspendCidList| <= 0 { return; }
      cid := suspendCidList[0];
      suspendCidList := suspendCidList[1..];
    }
  }
}
