/**
 One CoMutex among any number of coroutines that do anything else in between: block elsewhere, run
 batches, be resumed at any moment. arrivals is history: the coroutines blocked in CoMutexLock, in
 the order in which they first blocked. owners is history too: who got the mutex from CoMutexLock or
 CoMutexTryLock and has not called CoMutexUnLock since.
 */
module MutexProtocol {
  import opened Base
  import opened CoMutex

  /** picked: the running coroutine was taken off the queue by CoMutexResume and has not moved yet. */
  datatype Protocol = Protocol(mu: Mutex, inCall: set<int>, running: int, picked: bool, arrivals: seq<int>, owners: set<int>)

  const START := Protocol(FREE, {}, INVALID, false, [], {})

  datatype Event =
    | Wake(cid: int)   // the master resumes a coroutine for any other reason
    | Visit            // CoMutexResume reaches this mutex and wakes the head of the queue
    | CallLock | Retry | CallTryLock | CallUnLock
    | Leave            // the running coroutine yields elsewhere or ends

  predicate Enabled(s: Protocol, e: Event) {
    match e
    case Wake(c) => s.running == INVALID && c >= 0
    case Visit => s.running == INVALID && HasPick(s.mu)
    case CallLock => s.running >= 0 && s.running !in s.inCall && !(s.mu.lock && s.mu.hold == s.running)
    case Retry => s.running >= 0 && s.running in s.inCall
    case CallTryLock => s.running >= 0 && s.running !in s.inCall
    case CallUnLock => s.running >= 0 && s.running !in s.inCall && s.mu.lock && s.mu.hold == s.running
    case Leave => s.running >= 0 && s.running !in s.inCall
  }

  function Attempt(s: Protocol): Protocol {
    var c := s.running;
    var mu := LockAttempt(s.mu, c);
    if !s.mu.lock then s.(mu := mu, inCall := s.inCall - {c}, arrivals := RemoveFirst(s.arrivals, c), picked := false,
                            owners := s.owners + {c})
    else s.(mu := mu, inCall := s.inCall + {c}, running := INVALID, picked := false,
            arrivals := if c in s.inCall then s.arrivals else s.arrivals + [c])
  }

  function Next(s: Protocol, e: Event): Protocol
    requires Enabled(s, e)
  {
    match e
    case Wake(c) => s.(running := c)
    case Visit => s.(mu := Pick(s.mu).0, running := Pick(s.mu).1, picked := true)
    case CallLock => Attempt(s)
    case Retry => Attempt(s)
    case CallTryLock =>
      var (mu, ok) := TryLock(s.mu, s.running);
      s.(mu := mu, owners := if ok then s.owners + {s.running} else s.owners)
    case CallUnLock => s.(mu := UnLock(s.mu, s.running), owners := s.owners - {s.running})
    case Leave => s.(running := INVALID)
  }

  /** The queue, with the coroutine just taken off its head put back. */
  function FullQueue(s: Protocol): seq<int> {
    (if s.picked then [s.running] else []) + s.mu.queue
  }

  ghost predicate Inv(s: Protocol) {
    && NoDup(FullQueue(s)) && (forall c :: c in FullQueue(s) ==> c >= 0)
    && NoDup(s.arrivals) && (forall c :: c in s.arrivals <==> c in s.inCall)
    && (if s.mu.lock then s.mu.hold >= 0 && s.mu.hold !in s.inCall && !s.picked && RemoveFirst(s.mu.queue, s.mu.hold) == s.arrivals
        else s.mu.hold == INVALID && FullQueue(s) == s.arrivals)
    && (s.picked ==> s.running >= 0 && s.running in s.inCall)
    && s.running >= INVALID
    && s.owners == if s.mu.lock then {s.mu.hold} else {}
  }

  lemma NoDupTail(s: seq<int>)
    requires NoDup(s) && s != []
    ensures NoDup(s[1..]) && s[0] !in s[1..]
  {}

  lemma AcquireInv(s: Protocol)
    requires Inv(s) && s.running >= 0 && !s.mu.lock
    ensures Inv(Attempt(s))
  {
    var c := s.running;
    RemoveFirstNoDup(s.arrivals, c);
    if s.picked {
      assert FullQueue(s)[0] == c && FullQueue(s)[1..] == s.mu.queue;
      RemoveFirstHead(s.arrivals, c);
      NoDupTail(FullQueue(s));
    } else {
      assert FullQueue(s) == s.mu.queue;
    }
    assert FullQueue(Attempt(s)) == s.mu.queue;
  }

  lemma NoDupAppend(s: seq<int>, c: int)
    requires NoDup(s) && c !in s
    ensures NoDup(s + [c])
  {}

  lemma {:induction false} RemoveFirstAppend(s: seq<int>, h: int, c: int)
    requires h != c
    ensures RemoveFirst(s + [c], h) == RemoveFirst(s, h) + [c]
  {
    if s == [] {
    } else {
      assert (s + [c])[1..] == s[1..] + [c];
      if s[0] != h { RemoveFirstAppend(s[1..], h, c); }
    }
  }

  lemma BlockInv(s: Protocol)
    requires Inv(s) && s.running >= 0 && s.mu.lock && s.mu.hold != s.running
    ensures Inv(Attempt(s))
  {
    var c, q, h := s.running, s.mu.queue, s.mu.hold;
    assert FullQueue(s) == q;
    assert c in q ==> c in s.arrivals;
    if c !in s.inCall {
      NoDupAppend(q, c);
      NoDupAppend(s.arrivals, c);
      RemoveFirstAppend(q, h, c);
    }
    assert FullQueue(Attempt(s)) == Attempt(s).mu.queue;
  }

  lemma VisitInv(s: Protocol)
    requires Inv(s) && Enabled(s, Visit)
    ensures Inv(Next(s, Visit))
  {
    assert FullQueue(s) == s.mu.queue == FullQueue(Next(s, Visit));
    assert s.mu.queue[0] in s.arrivals;
  }

  lemma UnLockInv(s: Protocol)
    requires Inv(s) && Enabled(s, CallUnLock)
    ensures Inv(Next(s, CallUnLock))
  {
    assert FullQueue(s) == s.mu.queue;
    RemoveFirstNoDup(s.mu.queue, s.running);
    assert FullQueue(Next(s, CallUnLock)) == Next(s, CallUnLock).mu.queue;
  }

  lemma TryLockInv(s: Protocol)
    requires Inv(s) && Enabled(s, CallTryLock)
    ensures Inv(Next(s, CallTryLock))
  {
    assert FullQueue(Next(s, CallTryLock)) == FullQueue(s) == s.mu.queue;
    assert s.running !in s.mu.queue || s.mu.lock;
  }

  lemma SwitchInv(s: Protocol, e: Event)
    requires Inv(s) && Enabled(s, e) && (e.Wake? || e.Leave?)
    ensures Inv(Next(s, e))
  {
    assert FullQueue(Next(s, e)) == FullQueue(s) == s.mu.queue;
  }

  lemma NextInv(s: Protocol, e: Event)
    requires Inv(s) && Enabled(s, e)
    ensures Inv(Next(s, e))
  {
    match e
    case CallLock => if s.mu.lock { BlockInv(s); } else { AcquireInv(s); }
    case Retry => if s.mu.lock { BlockInv(s); } else { AcquireInv(s); }
    case Visit => VisitInv(s);
    case CallUnLock => UnLockInv(s);
    case CallTryLock => TryLockInv(s);
    case _ => SwitchInv(s, e);
  }

  // ---------- What each call does ----------

  /** CoMutexLock takes a free lock at once; otherwise the caller is blocked, with one place in the queue, at its end if it is new. */
  lemma LockEffect(s: Protocol, e: Event)
    requires Enabled(s, e) && (e.CallLock? || e.Retry?)
    ensures var r, c := Next(s, e), s.running;
            if !s.mu.lock then r.mu == s.mu.(lock := true, hold := c) && c !in r.inCall && r.running == c
            else r.mu == s.mu.(queue := r.mu.queue) && c in r.inCall && r.running == INVALID
                 && r.mu.queue == if c in s.mu.queue then s.mu.queue else s.mu.queue + [c]
    ensures forall x :: x != s.running ==> (x in Next(s, e).inCall <==> x in s.inCall)
  {}

  /** CoMutexTryLock takes the lock exactly if it is free, and never blocks or queues. */
  lemma TryLockEffect(s: Protocol)
    requires Enabled(s, CallTryLock)
    ensures var r := Next(s, CallTryLock);
            && r.inCall == s.inCall && r.running == s.running && r.mu.queue == s.mu.queue && r.mu.lock
            && r.mu.hold == (if s.mu.lock then s.mu.hold else s.running)
            && (s.running in r.owners <==> !s.mu.lock || s.running in s.owners)
  {}

  /** CoMutexUnLock frees the lock and gives up the caller's place in the queue, and nobody else's. */
  lemma UnLockEffect(s: Protocol)
    requires Inv(s) && Enabled(s, CallUnLock)
    ensures var r := Next(s, CallUnLock);
            && !r.mu.lock && r.mu.hold == INVALID && TakenOut(s.mu.queue, s.running, r.mu.queue)
            && r.inCall == s.inCall && r.running == s.running
  {
    assert FullQueue(s) == s.mu.queue;
    RemoveFirstTakesOut(s.mu.queue, s.running);
  }

  ghost predicate IsRun(run: seq<Protocol>, es: seq<Event>) {
    |run| == |es| + 1 && run[0] == START
    && forall j :: 0 <= j < |es| ==> Enabled(run[j], es[j]) && run[j + 1] == Next(run[j], es[j])
  }

  lemma {:induction false} Reachable(run: seq<Protocol>, es: seq<Event>, i: nat)
    requires IsRun(run, es) && i < |run|
    ensures Inv(run[i])
  {
    if i == 0 {
    } else {
      Reachable(run, es, i - 1);
      NextInv(run[i - 1], es[i - 1]);
    }
  }

  /**
   Queue exactness. Whenever the master is in control the queue names nobody twice and is, apart
   from a place the holder may still have in it, the list of blocked coroutines by first arrival.
   */
  lemma QueueExact(run: seq<Protocol>, es: seq<Event>, i: nat)
    requires IsRun(run, es) && i < |run| && run[i].running == INVALID
    ensures var s := run[i];
            && NoDup(s.mu.queue) && (forall c :: c in s.inCall <==> c in s.arrivals)
            && (s.mu.lock ==> RemoveFirst(s.mu.queue, s.mu.hold) == s.arrivals && s.mu.hold !in s.inCall)
            && (!s.mu.lock ==> s.mu.queue == s.arrivals)
  {
    Reachable(run, es, i);
    assert FullQueue(run[i]) == run[i].mu.queue;
  }

  lemma VisitStep(s: Protocol)
    requires Inv(s) && Enabled(s, Visit)
    ensures s.arrivals == s.mu.queue && Inv(Next(s, Visit))
    ensures Next(s, Visit).running == s.arrivals[0] && Enabled(Next(s, Visit), Retry)
  {
    assert FullQueue(s) == s.mu.queue;
    assert s.mu.queue[0] in s.arrivals;
    NextInv(s, Visit);
  }

  /** The coroutine CoMutexResume wakes is the one blocked longest, and its next step takes the lock. */
  lemma VisitServesLongestBlocked(run: seq<Protocol>, es: seq<Event>, i: nat)
    requires IsRun(run, es) && i < |es| && es[i] == Visit
    ensures var s, t := run[i], run[i + 1];
            && s.arrivals != [] && t.running == s.arrivals[0] && Enabled(t, Retry)
            && var u := Next(t, Retry);
               u.mu.lock && u.mu.hold == s.arrivals[0] && u.arrivals == s.arrivals[1..] && u.mu.queue == s.mu.queue[1..]
  {
    Reachable(run, es, i);
    VisitStep(run[i]);
    RemoveFirstHead(run[i].arrivals, run[i].arrivals[0]);
  }

  /** A spurious wake-up that finds the lock taken changes nothing: it never costs a place in the queue. */
  lemma SpuriousWakeKeepsPlace(run: seq<Protocol>, es: seq<Event>, i: nat, c: int)
    requires IsRun(run, es) && i < |run| && run[i].running == INVALID && c in run[i].inCall && c >= 0 && run[i].mu.lock
    ensures Enabled(run[i], Wake(c)) && Enabled(Next(run[i], Wake(c)), Retry)
    ensures Next(Next(run[i], Wake(c)), Retry) == run[i]
  {
    Reachable(run, es, i);
    QueueExact(run, es, i);
    assert c in run[i].arrivals;
    assert run[i].inCall + {c} == run[i].inCall;
  }

  /** The mutex excludes: at any time nobody owns it, or exactly the coroutine hold_cid names. */
  lemma MutualExclusion(run: seq<Protocol>, es: seq<Event>, i: nat)
    requires IsRun(run, es) && i < |run|
    ensures run[i].owners == if run[i].mu.lock then {run[i].mu.hold} else {}
    ensures forall c, d :: c in run[i].owners && d in run[i].owners ==> c == d
  {
    Reachable(run, es, i);
  }
}
