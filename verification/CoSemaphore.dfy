/** The state of one CoSemaphore and what each call does to it between two yields. */
module CoSemaphore {
  datatype Semaphore = Semaphore(value: int, waiters: set<int>)

  /** One turn of the CoSemaphoreWait loop passes. */
  predicate Passes(s: Semaphore) { s.value > 0 }

  function WaitTurn(s: Semaphore, c: int): Semaphore {
    if Passes(s) then Semaphore(s.value - 1, s.waiters - {c}) else s.(waiters := s.waiters + {c})
  }

  function Post(s: Semaphore): Semaphore { s.(value := s.value + 1) }
}

/** The CoSemaphore struct with its fields updated in place. */
module CoSemaphoreObject {
  import opened CoSemaphore

  class SemaphoreObject {
    var value: int
    var suspendCidSet: set<int>

    function S(): Semaphore
      reads this
    {
      Semaphore(value, suspendCidSet)
    }

    /** CoSemaphoreInit. */
    constructor (value: int)
      requires value >= 0
      ensures S() == Semaphore(value, {})
    {
      this.value, suspendCidSet := value, {};
    }

    method CoSemaphorePost()
      modifies this
      ensures S() == Post(old(S()))
    {
      value := value + 1;
    }

    /** One turn of the CoSemaphoreWait loop; passed means the call returns, otherwise it yields. */
    method Turn(cid: int) returns (passed: bool)
      modifies this
      ensures S() == WaitTurn(old(S()), cid) && passed == Passes(old(S()))
    {
      if value <= 0 {
        suspendCidSet := suspendCidSet + {cid};
        return false;
      }
      value := value - 1;
      suspendCidSet := suspendCidSet - {cid};
      return true;
    }
  }
}

/**
 One CoSemaphore among any number of coroutines that do anything else in between, and the pass of
 CoSemaphoreResume over it in small steps, with the waiters woken in any order.
 */
module SemaphoreProtocol {
  import opened Base
  import opened CoSemaphore

  /** posts and taken count returns from Post and Wait; todo is the snapshot the pass has still to walk. */
  datatype Protocol = Protocol(sem: Semaphore, inCall: set<int>, running: int, pass: bool, todo: set<int>, posts: nat, taken: nat)

  function Start(value: int): Protocol { Protocol(Semaphore(value, {}), {}, INVALID, false, {}, 0, 0) }

  datatype Event = Wake(cid: int) | PassStart | PassWake(cid: int) | PassEnd | Wait | Retry | CallPost | Leave

  predicate AtMaster(s: Protocol) { s.running == INVALID }
  predicate Outside(s: Protocol) { s.running >= 0 && s.running !in s.inCall }

  predicate Enabled(s: Protocol, e: Event) {
    match e
    case Wake(c) => AtMaster(s) && !s.pass && c >= 0
    case PassStart => AtMaster(s) && !s.pass && s.sem.value != 0
    case PassWake(c) => AtMaster(s) && s.pass && s.sem.value > 0 && c in s.todo
    case PassEnd => AtMaster(s) && s.pass && (s.sem.value <= 0 || s.todo == {})
    case Wait => Outside(s)
    case Retry => s.running >= 0 && s.running in s.inCall
    case CallPost => Outside(s)
    case Leave => Outside(s)
  }

  function Turn(s: Protocol): Protocol {
    var c := s.running;
    var sem := WaitTurn(s.sem, c);
    if Passes(s.sem) then s.(sem := sem, inCall := s.inCall - {c}, taken := s.taken + 1)
    else s.(sem := sem, inCall := s.inCall + {c}, running := INVALID)
  }

  function Next(s: Protocol, e: Event): Protocol
    requires Enabled(s, e)
  {
    match e
    case Wake(c) => s.(running := c)
    case PassStart => s.(pass := true, todo := s.sem.waiters)
    case PassWake(c) => s.(running := c, todo := s.todo - {c})
    case PassEnd => s.(pass := false, todo := {})
    case Wait => Turn(s)
    case Retry => Turn(s)
    case CallPost => s.(sem := Post(s.sem), posts := s.posts + 1)
    case Leave => s.(running := INVALID)
  }

  /** start is the value the semaphore was initialised with. */
  ghost predicate Inv(s: Protocol, start: int) {
    && s.sem.value == start + s.posts - s.taken && s.sem.value >= 0
    && s.sem.waiters == s.inCall && (forall c :: c in s.inCall ==> c >= 0)
    && s.running >= INVALID
    && (s.pass ==>
          && s.todo <= s.inCall && s.running !in s.todo
          && (s.running >= 0 || s.sem.value > 0 ==> s.inCall <= s.todo + {s.running}))
  }

  lemma NextInv(s: Protocol, e: Event, start: int)
    requires Inv(s, start) && Enabled(s, e)
    ensures Inv(Next(s, e), start)
  {}

  /** CoSemaphoreWait takes one unit and goes on if there is one; otherwise the caller is blocked among the waiters. */
  lemma WaitEffect(s: Protocol, e: Event)
    requires Enabled(s, e) && (e.Wait? || e.Retry?)
    ensures var r, c := Next(s, e), s.running;
            if s.sem.value > 0 then
              r.sem == Semaphore(s.sem.value - 1, s.sem.waiters - {c}) && r.running == c && r.inCall == s.inCall - {c}
            else r.sem == Semaphore(s.sem.value, s.sem.waiters + {c}) && r.running == INVALID && r.inCall == s.inCall + {c}
  {}

  /** CoSemaphorePost adds one unit and leaves waking to the pass. */
  lemma PostEffect(s: Protocol)
    requires Enabled(s, CallPost)
    ensures var r := Next(s, CallPost);
            r.sem == Semaphore(s.sem.value + 1, s.sem.waiters) && r.running == s.running && r.inCall == s.inCall
  {}

  ghost predicate Legal(s: Protocol, es: seq<Event>)
    decreases es
  {
    es == [] || (Enabled(s, es[0]) && Legal(Next(s, es[0]), es[1..]))
  }

  ghost function Exec(s: Protocol, es: seq<Event>): Protocol
    requires Legal(s, es)
    decreases es
  {
    if es == [] then s else Exec(Next(s, es[0]), es[1..])
  }

  lemma {:induction false} ExecConcat(s: Protocol, a: seq<Event>, b: seq<Event>)
    requires Legal(s, a) && Legal(Exec(s, a), b)
    ensures Legal(s, a + b) && Exec(s, a + b) == Exec(Exec(s, a), b)
    decreases a
  {
    if a == [] {
      assert a + b == b;
    } else {
      assert (a + b)[0] == a[0] && (a + b)[1..] == a[1..] + b;
      ExecConcat(Next(s, a[0]), a[1..], b);
    }
  }

  lemma {:induction false} ExecInv(s: Protocol, es: seq<Event>, start: int)
    requires Inv(s, start) && Legal(s, es)
    ensures Inv(Exec(s, es), start)
    decreases es
  {
    if es == [] {
    } else {
      NextInv(s, es[0], start);
      ExecInv(Next(s, es[0]), es[1..], start);
    }
  }

  /** In every run the value is what was put in less what was taken, never negative, and the waiters are exactly the blocked. */
  lemma Conservation(value: nat, es: seq<Event>)
    requires Legal(Start(value), es)
    ensures var s := Exec(Start(value), es);
            s.sem.value == value + s.posts - s.taken && s.sem.value >= 0 && s.sem.waiters == s.inCall
  {
    ExecInv(Start(value), es, value);
  }

  /** Each coroutine a pass wakes is blocked in Wait and consumes one unit in its next step. */
  lemma WakeConsumes(value: nat, es: seq<Event>, c: int)
    requires Legal(Start(value), es) && Enabled(Exec(Start(value), es), PassWake(c))
    ensures var s := Exec(Start(value), es); var t := Next(s, PassWake(c));
            && c in s.inCall && Enabled(t, Retry)
            && Next(t, Retry).sem.value == s.sem.value - 1 && Next(t, Retry).taken == s.taken + 1
            && c !in Next(t, Retry).sem.waiters && Next(t, Retry).running == c
  {
    ExecInv(Start(value), es, value);
  }

  /** No wake-up is lost: when the pass leaves the semaphore its value is 0 or nobody waits on it. */
  lemma PassEndsExact(value: nat, es: seq<Event>)
    requires Legal(Start(value), es) && Enabled(Exec(Start(value), es), PassEnd)
    ensures var s := Exec(Start(value), es); s.sem.value == 0 || s.inCall == {}
  {
    ExecInv(Start(value), es, value);
    var s := Exec(Start(value), es);
    if s.sem.value > 0 { assert s.inCall <= {INVALID}; }
  }
}

/** CoSemaphoreResume as a loop over the snapshot, proved against the protocol. */
module SemaphoreSchedule {
  import opened Base
  import opened CoSemaphoreObject
  import opened SemaphoreProtocol

  lemma PassEvents(p: Protocol, inner: seq<Event>)
    requires Enabled(p, PassStart) && Legal(Next(p, PassStart), inner)
    requires Enabled(Exec(Next(p, PassStart), inner), PassEnd)
    ensures var es := [PassStart] + inner + [PassEnd];
            Legal(p, es) && Exec(p, es) == Next(Exec(Next(p, PassStart), inner), PassEnd)
  {
    ExecConcat(Next(p, PassStart), inner, [PassEnd]);
    var es := [PassStart] + inner + [PassEnd];
    assert es[1..] == inner + [PassEnd];
  }

  class SemaphoreScheduler {
    const semaphore: SemaphoreObject
    var slaveCid: int
    var inCall: set<int>
    // History, read by no decision of the semaphore.
    var pass: bool
    var todo: set<int>
    var posts: nat
    var taken: nat

    function P(): Protocol
      reads this, semaphore
    {
      Protocol(semaphore.S(), inCall, slaveCid, pass, todo, posts, taken)
    }

    constructor (value: int)
      requires value >= 0
      ensures P() == Start(value) && fresh(semaphore)
    {
      semaphore := new SemaphoreObject(value);
      slaveCid, inCall, pass, todo, posts, taken := INVALID, {}, false, {}, 0, 0;
    }

    /** One turn of CoSemaphoreWait by the running coroutine. */
    method WaitTurn()
      requires slaveCid >= 0
      modifies this, semaphore
      ensures P() == Turn(old(P()))
    {
      var passed := semaphore.Turn(slaveCid);
      if passed {
        inCall, taken := inCall - {slaveCid}, taken + 1;
      } else {
        inCall, slaveCid := inCall + {slaveCid}, INVALID;
      }
    }

    method Do(e: Event)
      requires slaveCid >= 0 && Enabled(P(), e)
      modifies this, semaphore
      ensures P() == Next(old(P()), e)
    {
      match e
      case Wait => WaitTurn();
      case Retry => WaitTurn();
      case CallPost => semaphore.CoSemaphorePost(); posts := posts + 1;
      case Leave => slaveCid := INVALID;
    }

    /** A coroutine runs: whatever calls it makes, it comes back to the master by blocking or leaving. */
    method Slice(calls: seq<Event>, ghost start: int) returns (ghost es: seq<Event>)
      requires Inv(P(), start) && slaveCid >= 0 && pass
      modifies this, semaphore
      ensures Inv(P(), start) && AtMaster(P()) && pass && todo == old(todo)
      ensures Legal(old(P()), es) && P() == Exec(old(P()), es)
    {
      ghost var p0 := P();
      es := [];
      var i := 0;
      while slaveCid != INVALID
        invariant Inv(P(), start) && 0 <= i <= |calls| && pass && todo == old(todo)
        invariant Legal(p0, es) && P() == Exec(p0, es)
        decreases slaveCid != INVALID, slaveCid in inCall, |calls| - i
      {
        var e := Leave;
        if slaveCid in inCall {
          e := Retry;
        } else if i < |calls| {
          i := i + 1;
          if Enabled(P(), calls[i - 1]) { e := calls[i - 1]; }
        }
        NextInv(P(), e, start);
        ExecConcat(p0, es, [e]);
        es := es + [e];
        Do(e);
      }
    }

    /** The loop of CoSemaphoreResume over its snapshot. */
    method WakeLoop(script: seq<seq<Event>>, ghost start: int) returns (count: nat, ghost es: seq<Event>)
      requires Inv(P(), start) && AtMaster(P()) && pass && semaphore.value > 0
      modifies this, semaphore
      ensures Inv(P(), start) && AtMaster(P()) && pass && Legal(old(P()), es) && P() == Exec(old(P()), es)
      ensures semaphore.value <= 0 || todo == {}
      ensures count <= |old(todo)| && (old(todo) != {} ==> count > 0)
    {
      count, es := 0, [];
      ghost var p0 := P();
      while todo != {}
        invariant Inv(P(), start) && AtMaster(P()) && pass && Legal(p0, es) && P() == Exec(p0, es)
        invariant count + |todo| <= |p0.todo| && semaphore.value > 0
        invariant count == 0 ==> todo == p0.todo
        decreases |todo|
      {
        Inhabited(todo);
        var cid :| cid in todo;
        count := count + 1;
        NextInv(P(), PassWake(cid), start);
        ExecConcat(p0, es, [PassWake(cid)]);
        slaveCid, todo := cid, todo - {cid};
        ghost var more := Slice(if count <= |script| then script[count - 1] else [], start);
        ExecConcat(p0, es + [PassWake(cid)], more);
        es := es + [PassWake(cid)] + more;
        if semaphore.value <= 0 { break; }
      }
    }

    /** CoSemaphoreResume for this semaphore; script says what each woken coroutine does before it yields again. */
    method CoSemaphoreResume(script: seq<seq<Event>>, ghost start: int) returns (count: nat, ghost es: seq<Event>)
      requires Inv(P(), start) && AtMaster(P()) && !pass
      modifies this, semaphore
      ensures Inv(P(), start) && AtMaster(P()) && !pass && Legal(old(P()), es) && P() == Exec(old(P()), es)
      ensures semaphore.value == 0 || semaphore.suspendCidSet == {}
      ensures count <= |old(inCall)| && (old(inCall) != {} && old(semaphore.value) > 0 ==> count > 0)
    {
      count, es := 0, [];
      assert semaphore.value >= 0;
      if semaphore.value == 0 { return; }
      NextInv(P(), PassStart, start);
      pass, todo := true, semaphore.suspendCidSet;
      ghost var inner;
      count, inner := WakeLoop(script, start);
      PassEvents(old(P()), inner);
      NextInv(P(), PassEnd, start);
      if semaphore.value > 0 { assert inCall <= {INVALID}; }
      es := [PassStart] + inner + [PassEnd];
      pass, todo := false, {};
    }
  }
}
