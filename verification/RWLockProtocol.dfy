/**
 One CoRWLock among any number of coroutines that do anything else in between, and the pass of
 CoRWLockResume over it, in small steps: every interleaving of calls, spurious wake-ups and passes.
 */
module RWLockProtocol {
  import opened Base
  import opened CoRWLock

  /**
   inCall: the coroutines inside a lock call and which one. picked: the running coroutine was popped
   by the pass and has not moved yet. pass: the inner loop of CoRWLockResume is active; line is then
   the queue the pass started with and everything queued since, woken the entries it has popped.
   */
  datatype Protocol = Protocol(
    lock: RWLock, inCall: map<int, Kind>, running: int, picked: bool, pass: bool, line: seq<Waiter>, woken: seq<Waiter>)

  const START := Protocol(FREE, map[], INVALID, false, false, [], [])

  datatype Event =
    | Wake(cid: int)
    | PassStart | PassPop | PassEnd
    | Call(kind: Kind) | Retry | CallWrUnLock | CallRdUnLock
    | Leave

  predicate AtMaster(s: Protocol) { s.running == INVALID }

  /** The running coroutine is outside the lock calls. */
  predicate Outside(s: Protocol) { s.running >= 0 && s.running !in s.inCall }

  /** What the client rules and the code allow next; the assertions of the library are not assumed here. */
  predicate Enabled(s: Protocol, e: Event) {
    match e
    case Wake(c) => AtMaster(s) && !s.pass && c >= 0
    case PassStart => AtMaster(s) && !s.pass && s.lock.state == UnLock
    case PassPop => AtMaster(s) && s.pass && CanPop(s.lock)
    case PassEnd => AtMaster(s) && s.pass && !CanPop(s.lock)
    case Call(_) => Outside(s) && s.running !in Holders(s.lock)
    case Retry => s.running >= 0 && s.running in s.inCall
    case CallWrUnLock => Outside(s) && HoldsWrite(s.lock, s.running)
    case CallRdUnLock => Outside(s) && HoldsRead(s.lock, s.running)
    case Leave => Outside(s)
  }

  /** The assertions the library would evaluate in this step. */
  predicate AssertsHold(s: Protocol, e: Event) {
    match e
    case Call(k) => AttemptSafe(s.lock, k, s.running)
    case Retry => s.running in s.inCall && AttemptSafe(s.lock, s.inCall[s.running], s.running)
    case CallWrUnLock => WrUnLockSafe(s.lock, s.running)
    case CallRdUnLock => RdUnLockSafe(s.lock, s.running)
    case PassPop => CanPop(s.lock) && s.lock.queue[0].cid in s.inCall  // the popped coroutine is suspended
    case _ => true
  }

  function Turn(s: Protocol, k: Kind): Protocol {
    var c := s.running;
    var l := Attempt(s.lock, k, c);
    if Grants(s.lock, k) then s.(lock := l, inCall := s.inCall - {c}, picked := false)
    else s.(lock := l, inCall := s.inCall[c := k], running := INVALID, picked := false,
            line := if Waiter(k, c) in s.lock.queue then s.line else s.line + [Waiter(k, c)])
  }

  function Next(s: Protocol, e: Event): Protocol
    requires Enabled(s, e)
  {
    match e
    case Wake(c) => s.(running := c)
    case PassStart => s.(pass := true, line := s.lock.queue, woken := [])
    case PassPop =>
      s.(lock := s.lock.(queue := s.lock.queue[1..]), running := s.lock.queue[0].cid, picked := true,
         woken := s.woken + [s.lock.queue[0]])
    case PassEnd => s.(pass := false)
    case Call(k) => Turn(s, k)
    case Retry => Turn(s, s.inCall[s.running])
    case CallWrUnLock => s.(lock := WrUnLock(s.lock, s.running))
    case CallRdUnLock => s.(lock := RdUnLock(s.lock, s.running))
    case Leave => s.(running := INVALID)
  }

  // ---------- The invariant ----------

  /** The three states of the lock, as its documentation has them. */
  predicate LockInv(l: RWLock) {
    match l.state
    case UnLock => l.writer == INVALID && l.readers == {}
    case WriteLock => l.writer >= 0 && l.readers == {}
    case ReadLock => l.writer == INVALID && l.readers != {} && forall c :: c in l.readers ==> c >= 0
  }

  ghost predicate OncePerCid(q: seq<Waiter>) {
    forall i, j :: 0 <= i < j < |q| ==> q[i].cid != q[j].cid
  }

  predicate Blocked(s: Protocol, w: Waiter) {
    w.cid in s.inCall && s.inCall[w.cid] == w.kind
  }

  /** Every entry is a blocked coroutine or a place its holder still has; everybody blocked is queued. */
  ghost predicate QueueInv(s: Protocol) {
    && OncePerCid(s.lock.queue)
    && (forall w :: w in s.lock.queue ==> w.cid >= 0 && (Blocked(s, w) || Holds(s.lock, w.kind, w.cid)))
    && (forall c :: c in s.inCall ==> c >= 0 && c !in Holders(s.lock))
    && (forall c :: c in s.inCall && !(s.picked && c == s.running) ==> Waiter(s.inCall[c], c) in s.lock.queue)
  }

  /** A popped coroutine is inside the matching call, is off the queue, and the lock is there for it. */
  ghost predicate PickInv(s: Protocol) {
    s.picked ==>
      && s.pass && s.running >= 0 && s.running in s.inCall && Grants(s.lock, s.inCall[s.running])
      && s.running !in Holders(s.lock) && forall w :: w in s.lock.queue ==> w.cid != s.running
  }

  function Others(s: Protocol): set<int> { Holders(s.lock) - {s.running} }

  /** During a pass nobody keeps a stale place, wake-ups follow the line, and a lock others hold is a read lock. */
  ghost predicate PassInv(s: Protocol) {
    s.pass ==>
      && (forall w :: w in s.lock.queue ==> Blocked(s, w))
      && s.woken + s.lock.queue == s.line
      && (s.running >= 0 && Others(s) != {} ==> s.lock.state == ReadLock)
      && (s.running >= 0 && s.running in s.inCall ==> s.picked)
  }

  ghost predicate Inv(s: Protocol) {
    LockInv(s.lock) && QueueInv(s) && PickInv(s) && PassInv(s) && s.running >= INVALID
  }

  lemma GrantInv(s: Protocol, k: Kind)
    requires Inv(s) && s.running >= 0 && s.running !in Holders(s.lock) && Grants(s.lock, k)
    requires s.running in s.inCall ==> s.inCall[s.running] == k
    ensures AttemptSafe(s.lock, k, s.running) && Inv(Turn(s, k))
  {
    assert Turn(s, k).lock.queue == s.lock.queue;
  }

  lemma BlockInv(s: Protocol, k: Kind)
    requires Inv(s) && s.running >= 0 && s.running !in Holders(s.lock) && !Grants(s.lock, k)
    requires s.running in s.inCall ==> s.inCall[s.running] == k
    ensures AttemptSafe(s.lock, k, s.running) && Inv(Turn(s, k))
  {
    var c, t, q := s.running, Turn(s, k), s.lock.queue;
    assert !s.picked;
    if Waiter(k, c) !in q {
      assert forall w :: w in t.lock.queue <==> w in q || w == Waiter(k, c);
      assert forall w :: w in q ==> w.cid != c;
      if s.pass { assert s.woken + t.lock.queue == (s.woken + q) + [Waiter(k, c)]; }
    }
  }

  lemma TurnInv(s: Protocol, k: Kind)
    requires Inv(s) && s.running >= 0 && s.running !in Holders(s.lock)
    requires s.running in s.inCall ==> s.inCall[s.running] == k
    ensures AttemptSafe(s.lock, k, s.running) && Inv(Turn(s, k))
  {
    if Grants(s.lock, k) { GrantInv(s, k); } else { BlockInv(s, k); }
  }

  lemma {:induction false} RemoveAllOnce(q: seq<Waiter>, w: Waiter)
    requires OncePerCid(q)
    ensures OncePerCid(RemoveAll(q, w))
  {
    if q == [] {
    } else {
      RemoveAllOnce(q[1..], w);
      var r := RemoveAll(q[1..], w);
      assert forall x :: x in r ==> x in q[1..];
      assert forall j :: 0 <= j < |r| ==> r[j] in q[1..];
      assert forall x :: x in q[1..] ==> x.cid != q[0].cid;
    }
  }

  lemma WrUnLockInv(s: Protocol)
    requires Inv(s) && Enabled(s, CallWrUnLock)
    ensures AssertsHold(s, CallWrUnLock) && Inv(Next(s, CallWrUnLock))
  {
    var w := Waiter(Write, s.running);
    RemoveAllOnce(s.lock.queue, w);
    assert s.pass ==> w !in s.lock.queue;
  }

  lemma RdUnLockLock(l: RWLock, c: int)
    requires LockInv(l) && HoldsRead(l, c)
    ensures LockInv(RdUnLock(l, c)) && Holders(RdUnLock(l, c)) == Holders(l) - {c}
    ensures forall w: Waiter :: Holds(l, w.kind, w.cid) && w != Waiter(Read, c) ==> Holds(RdUnLock(l, c), w.kind, w.cid)
  {}

  lemma RdUnLockQueue(s: Protocol)
    requires LockInv(s.lock) && QueueInv(s) && s.running >= 0 && Enabled(s, CallRdUnLock)
    ensures LockInv(Next(s, CallRdUnLock).lock) && QueueInv(Next(s, CallRdUnLock))
  {
    RdUnLockLock(s.lock, s.running);
    RemoveAllOnce(s.lock.queue, Waiter(Read, s.running));
  }

  lemma RdUnLockInv(s: Protocol)
    requires Inv(s) && Enabled(s, CallRdUnLock)
    ensures AssertsHold(s, CallRdUnLock) && Inv(Next(s, CallRdUnLock))
  {
    RdUnLockQueue(s);
    assert s.pass ==> Waiter(Read, s.running) !in s.lock.queue;
  }

  lemma PopQueue(s: Protocol)
    requires QueueInv(s) && PassInv(s) && Enabled(s, PassPop)
    ensures AssertsHold(s, PassPop) && QueueInv(Next(s, PassPop)) && PickInv(Next(s, PassPop))
  {
    var q := s.lock.queue;
    assert q[0] in q;
    assert forall w :: w in q <==> w == q[0] || w in q[1..];
  }

  lemma PopInv(s: Protocol)
    requires Inv(s) && Enabled(s, PassPop)
    ensures AssertsHold(s, PassPop) && Inv(Next(s, PassPop))
  {
    PopQueue(s);
    var q := s.lock.queue;
    assert forall w :: w in q[1..] ==> w in q;
    assert s.woken + q == (s.woken + [q[0]]) + q[1..];
  }

  lemma NextInv(s: Protocol, e: Event)
    requires Inv(s) && Enabled(s, e)
    ensures AssertsHold(s, e) && Inv(Next(s, e))
  {
    match e
    case Call(k) => TurnInv(s, k);
    case Retry => TurnInv(s, s.inCall[s.running]);
    case CallWrUnLock => WrUnLockInv(s);
    case CallRdUnLock => RdUnLockInv(s);
    case PassPop => PopInv(s);
    case _ =>
  }

  // ---------- What each call does ----------

  /**
   A lock call takes the lock at once if its state allows, with nobody queued; otherwise the caller is
   blocked, with one place in the queue, at its end if it is new, and the holders stay.
   */
  lemma LockEffect(s: Protocol, e: Event)
    requires Enabled(s, e) && (e.Call? || e.Retry?)
    ensures var r, c, k := Next(s, e), s.running, if e.Call? then e.kind else s.inCall[s.running];
            if s.lock.state == UnLock || (k == Read && s.lock.state == ReadLock) then
              && r.lock.queue == s.lock.queue && c !in r.inCall && r.running == c
              && (k == Write ==> r.lock.state == WriteLock && r.lock.writer == c && r.lock.readers == s.lock.readers)
              && (k == Read ==> r.lock.state == ReadLock && r.lock.readers == s.lock.readers + {c} && r.lock.writer == s.lock.writer)
            else
              && r.lock == s.lock.(queue := r.lock.queue) && c in r.inCall && r.inCall[c] == k && r.running == INVALID
              && r.lock.queue == if Waiter(k, c) in s.lock.queue then s.lock.queue else s.lock.queue + [Waiter(k, c)]
    ensures forall x :: x != s.running ==> (x in Next(s, e).inCall <==> x in s.inCall)
  {}

  lemma {:induction false} RemoveAllTakesOut(q: seq<Waiter>, w: Waiter)
    requires OncePerCid(q)
    ensures TakenOut(q, w, RemoveAll(q, w))
  {
    if q == [] {
    } else if q[0] == w {
      assert w !in q[1..];
      TakenOutFirst(q);
    } else {
      RemoveAllTakesOut(q[1..], w);
      TakenOutLater(q, w, RemoveAll(q[1..], w));
    }
  }

  /** After a writer's unlock nobody holds the lock, the writer's leftover place is gone, and every other place is kept. */
  lemma WrUnLockEffect(s: Protocol)
    requires Inv(s) && Enabled(s, CallWrUnLock)
    ensures var r := Next(s, CallWrUnLock);
            && r.lock.state == UnLock && r.lock.writer == INVALID && r.lock.readers == {} && Holders(r.lock) == {}
            && TakenOut(s.lock.queue, Waiter(Write, s.running), r.lock.queue)
            && (forall w :: w in r.lock.queue ==> w.cid != s.running)
            && r.inCall == s.inCall && r.running == s.running
  {
    RemoveAllTakesOut(s.lock.queue, Waiter(Write, s.running));
  }

  /** After a reader's unlock the other readers hold the lock, or nobody does and it is free. */
  lemma RdUnLockEffect(s: Protocol)
    requires Inv(s) && Enabled(s, CallRdUnLock)
    ensures var r := Next(s, CallRdUnLock);
            && r.lock.readers == s.lock.readers - {s.running} && r.lock.writer == INVALID
            && (r.lock.state == if s.lock.readers == {s.running} then UnLock else ReadLock)
            && TakenOut(s.lock.queue, Waiter(Read, s.running), r.lock.queue)
            && (forall w :: w in r.lock.queue ==> w.cid != s.running)
            && r.inCall == s.inCall && r.running == s.running
  {
    RemoveAllTakesOut(s.lock.queue, Waiter(Read, s.running));
    if s.lock.readers - {s.running} == {} { assert s.lock.readers == {s.running}; }
  }

  // ---------- Runs ----------

  ghost predicate Legal(s: Protocol, es: seq<Event>)
    decreases es
  {
    es == [] || (Enabled(s, es[0]) && Legal(Next(s, es[0]), es[1..]))
  }

  ghost function Exec(s: Protocol, es: seq<Event>): Protocol
    requires Legal(s, es)
    decreases es
  {
    if es == [] then s else Exec(Next(s, es[0]), es[1..])
  }

  lemma {:induction false} ExecConcat(s: Protocol, a: seq<Event>, b: seq<Event>)
    requires Legal(s, a) && Legal(Exec(s, a), b)
    ensures Legal(s, a + b) && Exec(s, a + b) == Exec(Exec(s, a), b)
    decreases a
  {
    if a == [] {
      assert a + b == b;
    } else {
      assert (a + b)[0] == a[0] && (a + b)[1..] == a[1..] + b;
      ExecConcat(Next(s, a[0]), a[1..], b);
    }
  }

  lemma {:induction false} ExecInv(s: Protocol, es: seq<Event>)
    requires Inv(s) && Legal(s, es)
    ensures Inv(Exec(s, es))
    decreases es
  {
    if es == [] {
    } else {
      NextInv(s, es[0]);
      ExecInv(Next(s, es[0]), es[1..]);
    }
  }

  /**
   In every state of every run, spurious wake-ups included: unlocked means no holder, write-locked
   one writer and no reader, read-locked a non-empty reader set and no writer; and whatever step the
   clients' rules allow next, no assertion of the library fails in it.
   */
  lemma EveryRun(es: seq<Event>, e: Event)
    requires Legal(START, es)
    ensures LockInv(Exec(START, es).lock)
    ensures Enabled(Exec(START, es), e) ==> AssertsHold(Exec(START, es), e)
  {
    ExecInv(START, es);
    if Enabled(Exec(START, es), e) { NextInv(Exec(START, es), e); }
  }

  /** No wasted wake-up: the entry a pass pops is blocked in the matching call and takes the lock in its next step. */
  lemma PopAcquires(es: seq<Event>)
    requires Legal(START, es) && Enabled(Exec(START, es), PassPop)
    ensures var s := Exec(START, es); var w := s.lock.queue[0]; var t := Next(s, PassPop);
            && Blocked(s, w) && t.running == w.cid && Enabled(t, Retry)
            && Holds(Next(t, Retry).lock, w.kind, w.cid) && Next(t, Retry).running == w.cid
  {
    ExecInv(START, es);
    NextInv(Exec(START, es), PassPop);
  }

  /** A pass wakes in queue order: what it has woken is a prefix of the line it found and saw grow. */
  lemma PassFollowsLine(es: seq<Event>)
    requires Legal(START, es) && Exec(START, es).pass
    ensures Exec(START, es).woken <= Exec(START, es).line
  {
    ExecInv(START, es);
  }

  // ---------- Termination of the pass ----------

  /** Pops a pass can still make: the whole queue while nobody else holds the lock, the queued readers after. */
  function Rank(s: Protocol): nat {
    if Others(s) == {} then |s.lock.queue| else ReadCount(s.lock.queue)
  }

  lemma TurnRank(s: Protocol, k: Kind)
    requires Inv(s) && s.pass && s.running >= 0 && s.running !in Holders(s.lock)
    requires s.running in s.inCall ==> s.inCall[s.running] == k
    ensures Rank(Turn(s, k)) <= Rank(s)
  {
    if !Grants(s.lock, k) {
      assert Others(s) == Holders(s.lock);
      ReadCountAppend(s.lock.queue, Waiter(k, s.running));
    } else {
      assert Others(Turn(s, k)) == Others(s);
    }
  }

  lemma RankStep(s: Protocol, e: Event)
    requires Inv(s) && s.pass && Enabled(s, e) && e != PassEnd
    ensures Next(s, e).pass && Rank(Next(s, e)) + (if e == PassPop then 1 else 0) <= Rank(s)
  {
    NextInv(s, e);
    match e
    case Call(k) => TurnRank(s, k);
    case Retry => TurnRank(s, s.inCall[s.running]);
    case _ =>
  }

  function Pops(es: seq<Event>): nat {
    if es == [] then 0 else (if es[0] == PassPop then 1 else 0) + Pops(es[1..])
  }

  lemma {:induction false} PopsBounded(s: Protocol, es: seq<Event>)
    requires Inv(s) && s.pass && Legal(s, es) && PassEnd !in es
    ensures Exec(s, es).pass && Pops(es) + Rank(Exec(s, es)) <= Rank(s)
    decreases es
  {
    if es == [] {
    } else {
      RankStep(s, es[0]);
      NextInv(s, es[0]);
      PopsBounded(Next(s, es[0]), es[1..]);
    }
  }

  /**
   The inner loop of CoRWLockResume ends whatever the woken coroutines do before they yield: it wakes
   at most as many as were queued when it started, and it stops write-locked, or with an empty
   queue, or read-locked with a writer in front.
   */
  lemma PassTerminates(es: seq<Event>, during: seq<Event>)
    requires Legal(START, es) && Enabled(Exec(START, es), PassStart)
    requires Legal(Next(Exec(START, es), PassStart), during) && PassEnd !in during
    ensures Pops(during) <= |Exec(START, es).lock.queue|
    ensures var t := Exec(Next(Exec(START, es), PassStart), during);
            Enabled(t, PassEnd) ==>
              || t.lock.state == WriteLock || t.lock.queue == []
              || (t.lock.state == ReadLock && t.lock.queue[0].kind == Write)
  {
    ExecInv(START, es);
    NextInv(Exec(START, es), PassStart);
    PopsBounded(Next(Exec(START, es), PassStart), during);
  }

  // ---------- The comment at the head of the pass ----------

  /** What the code says of a read-locked lock where the pass skips it: only writers are suspended. */
  predicate OnlyWritersWait(s: Protocol) {
    s.lock.state == ReadLock ==> forall w :: w in s.lock.queue && w.kind == Read ==> !Blocked(s, w)
  }

  predicate ReaderWaits(s: Protocol, except: int) {
    exists w :: w in s.lock.queue && w.kind == Read && w.cid != except && Blocked(s, w)
  }

  /** A reader takes the free lock, in a first or repeated attempt, past another reader that is queued. */
  predicate Overtakes(s: Protocol, e: Event) {
    && s.lock.state == UnLock && s.running >= 0
    && (e == Call(Read) || (e == Retry && s.running in s.inCall && s.inCall[s.running] == Read))
    && ReaderWaits(s, s.running)
  }

  /** A step makes the comment false exactly when a reader takes the free lock while another reader waits in the queue. */
  lemma CommentBreaksIff(s: Protocol, e: Event)
    requires Enabled(s, e) && OnlyWritersWait(s)
    ensures OnlyWritersWait(Next(s, e)) <==> !Overtakes(s, e)
  {}

  /** No step of es, taken from s, is a reader taking the free lock past a queued one. */
  ghost predicate NoOvertaking(s: Protocol, es: seq<Event>)
    requires Legal(s, es)
    decreases es
  {
    es == [] || (!Overtakes(s, es[0]) && NoOvertaking(Next(s, es[0]), es[1..]))
  }

  /** The comment is true in every state of es, run from s. */
  ghost predicate TrueThroughout(s: Protocol, es: seq<Event>)
    requires Legal(s, es)
    decreases es
  {
    OnlyWritersWait(s) && (es == [] || TrueThroughout(Next(s, es[0]), es[1..]))
  }

  lemma {:induction false} ThroughoutIff(s: Protocol, es: seq<Event>)
    requires Legal(s, es) && OnlyWritersWait(s)
    ensures TrueThroughout(s, es) <==> NoOvertaking(s, es)
    decreases es
  {
    if es == [] {
    } else {
      CommentBreaksIff(s, es[0]);
      if OnlyWritersWait(Next(s, es[0])) { ThroughoutIff(Next(s, es[0]), es[1..]); }
    }
  }

  /** The comment is true all along a run exactly when no reader of it takes the free lock past a queued one. */
  lemma CommentHoldsIff(es: seq<Event>)
    requires Legal(START, es)
    ensures TrueThroughout(START, es) <==> NoOvertaking(START, es)
  {
    ThroughoutIff(START, es);
  }

  /** One more event of a run from START that has reached s. */
  lemma Extend(es: seq<Event>, s: Protocol, e: Event) returns (es': seq<Event>, s': Protocol)
    requires Legal(START, es) && Exec(START, es) == s && Enabled(s, e)
    ensures Legal(START, es') && Exec(START, es') == s' == Next(s, e)
  {
    ExecConcat(START, es, [e]);
    es', s' := es + [e], Next(s, e);
  }

  /** Coroutine 0 holds the lock for writing, and a writer and a reader queue behind it. */
  lemma WriterAndReaderQueue() returns (es: seq<Event>, s: Protocol)
    ensures Legal(START, es) && Exec(START, es) == s && AtMaster(s) && !s.pass && s.inCall == map[1 := Write, 2 := Read]
    ensures s.lock == RWLock(WriteLock, 0, {}, [Waiter(Write, 1), Waiter(Read, 2)])
  {
    s, es := START, [];
    es, s := Extend(es, s, Wake(0));
    es, s := Extend(es, s, Call(Write));
    es, s := Extend(es, s, Leave);
    es, s := Extend(es, s, Wake(1));
    es, s := Extend(es, s, Call(Write));
    assert s.lock.queue == [Waiter(Write, 1)] && s.inCall == map[1 := Write];
    es, s := Extend(es, s, Wake(2));
    es, s := Extend(es, s, Call(Read));
  }

  /**
   The code skips read-locked locks because, it says, only writers are suspended by then. That is not
   so: coroutine 2 queues for reading behind the writers 0 and 1, then 0 comes back as a reader.
   */
  lemma ReaderQueuedUnderReadLock() returns (es: seq<Event>)
    ensures Legal(START, es) && AtMaster(Exec(START, es)) && !OnlyWritersWait(Exec(START, es))
    ensures Exec(START, es).lock.state == ReadLock && Blocked(Exec(START, es), Waiter(Read, 2))
  {
    var s;
    es, s := WriterAndReaderQueue();
    es, s := Extend(es, s, Wake(0));
    es, s := Extend(es, s, CallWrUnLock);
    es, s := Extend(es, s, Call(Read));
    assert Waiter(Read, 2) == s.lock.queue[1];
    es, s := Extend(es, s, Leave);
  }
}
