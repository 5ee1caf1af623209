/**
 CallOnce and SingleFlight share one call loop and differ in what their pass does once the function
 has finished: SingleFlight goes back to the initial state. Small steps, any number of coroutines,
 any interleaving; kind says which of the two the object is.
 */
module CallOnceProtocol {
  import opened Base

  datatype Kind = Once | Flight
  datatype CallState = Init | InCall | Finish

  /** A returned Do and the flight, counted from 1, whose result it returned with. */
  datatype Return = Return(cid: int, flight: nat)

  /**
   waiting: the coroutines blocked in Do, with the flight each one joined. runner: the coroutine whose
   function is executing. starts and finishes count executions of the function.
   */
  datatype Protocol = Protocol(
    kind: Kind, state: CallState, suspended: set<int>, waiting: map<int, nat>, running: int, runner: int,
    pass: bool, todo: set<int>, starts: nat, finishes: nat, results: seq<Return>)

  function Start(kind: Kind): Protocol {
    Protocol(kind, Init, {}, map[], INVALID, INVALID, false, {}, 0, 0, [])
  }

  datatype Event =
    | Wake(cid: int)
    | PassStart | PassWake(cid: int) | PassEnd
    | PassReset           // SingleFlight finished and nobody waits
    | Do | Retry | FuncDone
    | Leave               // yields elsewhere, inside its function or outside, or ends

  predicate AtMaster(s: Protocol) { s.running == INVALID }
  predicate Outside(s: Protocol) { s.running >= 0 && s.running !in s.waiting }

  predicate Enabled(s: Protocol, e: Event) {
    match e
    case Wake(c) => AtMaster(s) && !s.pass && c >= 0
    case PassStart => AtMaster(s) && !s.pass && s.state == Finish && s.suspended != {}
    case PassReset => AtMaster(s) && !s.pass && s.state == Finish && s.suspended == {} && s.kind == Flight
    case PassWake(c) => AtMaster(s) && s.pass && c in s.todo
    case PassEnd => AtMaster(s) && s.pass && s.todo == {}
    case Do => Outside(s) && s.running != s.runner
    case Retry => s.running >= 0 && s.running in s.waiting
    case FuncDone => Outside(s) && s.running == s.runner
    case Leave => Outside(s)
  }

  /** The assertion at the end of a pass, and the resumption of a coroutine that is still suspended in Do. */
  predicate AssertsHold(s: Protocol, e: Event) {
    match e
    case PassEnd => s.suspended == {}
    case PassWake(c) => c in s.waiting
    case _ => true
  }

  /** The while loop of Do: returns when finished, otherwise blocks for the flight it joins. */
  function Turn(s: Protocol, flight: nat): Protocol {
    var c := s.running;
    if s.state == Finish then
      s.(suspended := s.suspended - {c}, waiting := s.waiting - {c}, results := s.results + [Return(c, flight)])
    else s.(suspended := s.suspended + {c}, waiting := s.waiting[c := flight], running := INVALID)
  }

  function Next(s: Protocol, e: Event): Protocol
    requires Enabled(s, e)
  {
    match e
    case Wake(c) => s.(running := c)
    case PassStart => s.(pass := true, todo := s.suspended)
    case PassReset => s.(state := Init)
    case PassWake(c) => s.(running := c, todo := s.todo - {c})
    case PassEnd => s.(pass := false, state := if s.kind == Flight then Init else s.state)
    case Do => if s.state == Init then s.(state := InCall, runner := s.running, starts := s.starts + 1) else Turn(s, s.starts)
    case Retry => Turn(s, s.waiting[s.running])
    case FuncDone =>
      s.(state := Finish, runner := INVALID, finishes := s.finishes + 1, results := s.results + [Return(s.running, s.starts)])
    case Leave => s.(running := INVALID)
  }

  ghost predicate StateInv(s: Protocol) {
    match s.state
    case Init => s.runner == INVALID && s.waiting == map[] && s.starts == s.finishes && (s.kind == Once ==> s.starts == 0)
    case InCall => s.runner >= 0 && s.runner !in s.waiting && s.starts == s.finishes + 1 && (s.kind == Once ==> s.starts == 1)
    case Finish => s.runner == INVALID && s.starts == s.finishes >= 1 && (s.kind == Once ==> s.starts == 1)
  }

  ghost predicate Inv(s: Protocol) {
    && StateInv(s)
    && s.suspended == s.waiting.Keys
    && (forall c :: c in s.waiting ==> c >= 0 && s.waiting[c] == s.starts)
    && (forall r :: r in s.results ==> 1 <= r.flight <= s.finishes)
    && s.running >= INVALID
    && (s.pass ==> s.state == Finish && s.todo <= s.suspended && s.running !in s.todo && s.suspended <= s.todo + {s.running})
  }

  lemma TurnInv(s: Protocol, flight: nat)
    requires Inv(s) && s.running >= 0 && s.state != Init && s.running != s.runner && flight == s.starts
    ensures Inv(Turn(s, flight))
  {}

  lemma PassEndInv(s: Protocol)
    requires Inv(s) && Enabled(s, PassEnd)
    ensures s.suspended == {} && s.waiting == map[] && Inv(Next(s, PassEnd))
  {}

  lemma NextInv(s: Protocol, e: Event)
    requires Inv(s) && Enabled(s, e)
    ensures AssertsHold(s, e) && Inv(Next(s, e))
  {
    match e
    case Do => if s.state != Init { TurnInv(s, s.starts); }
    case Retry => TurnInv(s, s.waiting[s.running]);
    case PassEnd => PassEndInv(s);
    case PassReset => assert s.waiting.Keys == {}; assert s.waiting == map[];
    case FuncDone => assert forall r :: r in Next(s, e).results ==> r in s.results || r == Return(s.running, s.starts);
    case _ =>
  }

  /** Do starts the function if nobody has, joins the flight under way, and returns at once after its end. */
  lemma DoEffect(s: Protocol)
    requires Inv(s) && Enabled(s, Do)
    ensures var r, c := Next(s, Do), s.running;
            match s.state
            case Init => r.state == CallState.InCall && r.runner == c && r.running == c && r.waiting == s.waiting
                         && r.starts == s.starts + 1 && r.results == s.results
            case InCall => r.state == s.state && r.runner == s.runner && r.running == INVALID && r.starts == s.starts
                           && r.waiting == s.waiting[c := s.starts] && r.results == s.results
            case Finish => r.state == s.state && r.running == c && r.waiting == s.waiting && r.starts == s.starts
                           && r.results == s.results + [Return(c, s.starts)]
  {}

  /** A coroutine suspended in Do returns exactly if the flight it joined has finished when it is resumed. */
  lemma RetryEffect(s: Protocol)
    requires Inv(s) && Enabled(s, Retry)
    ensures var r, c := Next(s, Retry), s.running;
            if s.state == Finish then
              && c !in r.waiting && c !in r.suspended && r.running == c && r.results == s.results + [Return(c, s.waiting[c])]
              && forall d :: d != c ==> (d in r.waiting <==> d in s.waiting)
            else r == s.(running := INVALID)
  {
    if s.state != Finish {
      assert s.suspended + {s.running} == s.suspended;
      assert s.waiting[s.running := s.waiting[s.running]] == s.waiting;
    }
  }

  /** The end of the function is the end of the flight, and the runner returns with it; nobody is woken yet. */
  lemma DoneEffect(s: Protocol)
    requires Inv(s) && Enabled(s, FuncDone)
    ensures var r := Next(s, FuncDone);
            && r.state == Finish && r.runner == INVALID && r.finishes == s.starts && r.waiting == s.waiting
            && r.running == s.running && r.results == s.results + [Return(s.running, s.starts)]
  {}

  /** A finished SingleFlight whose waiters have all returned starts afresh, a finished CallOnce stays finished. */
  lemma ResetEffect(s: Protocol, e: Event)
    requires Inv(s) && Enabled(s, e) && (e.PassEnd? || e.PassReset?)
    ensures Next(s, e).state == if s.kind == Flight then Init else Finish
    ensures !Next(s, e).pass && Next(s, e).waiting == map[] && Next(s, e).results == s.results
  {
    NextInv(s, e);
  }

  ghost predicate Legal(s: Protocol, es: seq<Event>)
    decreases es
  {
    es == [] || (Enabled(s, es[0]) && Legal(Next(s, es[0]), es[1..]))
  }

  ghost function Exec(s: Protocol, es: seq<Event>): Protocol
    requires Legal(s, es)
    decreases es
  {
    if es == [] then s else Exec(Next(s, es[0]), es[1..])
  }

  lemma {:induction false} ExecConcat(s: Protocol, a: seq<Event>, b: seq<Event>)
    requires Legal(s, a) && Legal(Exec(s, a), b)
    ensures Legal(s, a + b) && Exec(s, a + b) == Exec(Exec(s, a), b)
    decreases a
  {
    if a == [] {
      assert a + b == b;
    } else {
      assert (a + b)[0] == a[0] && (a + b)[1..] == a[1..] + b;
      ExecConcat(Next(s, a[0]), a[1..], b);
    }
  }

  lemma {:induction false} ExecInv(s: Protocol, es: seq<Event>)
    requires Inv(s) && Legal(s, es)
    ensures Inv(Exec(s, es)) && Exec(s, es).kind == s.kind
    decreases es
  {
    if es == [] {
    } else {
      NextInv(s, es[0]);
      ExecInv(Next(s, es[0]), es[1..]);
    }
  }

  /** In no run does an assertion of a pass fail, and no Do has returned with a flight that had not finished. */
  lemma EveryRun(kind: Kind, es: seq<Event>, e: Event)
    requires Legal(Start(kind), es)
    ensures Enabled(Exec(Start(kind), es), e) ==> AssertsHold(Exec(Start(kind), es), e)
    ensures forall r :: r in Exec(Start(kind), es).results ==> 1 <= r.flight <= Exec(Start(kind), es).finishes
  {
    ExecInv(Start(kind), es);
    if Enabled(Exec(Start(kind), es), e) { NextInv(Exec(Start(kind), es), e); }
  }

  /** The function of a CallOnce runs at most once, and no Do has returned before it finished. */
  lemma CallOnceOnce(es: seq<Event>)
    requires Legal(Start(Once), es)
    ensures var s := Exec(Start(Once), es); s.starts <= 1 && (s.results != [] ==> s.finishes == 1 && s.state == Finish)
  {
    ExecInv(Start(Once), es);
    var s := Exec(Start(Once), es);
    if s.results != [] { assert s.results[0] in s.results; }
  }

  /** At most one flight is in progress, and a new one starts only when everybody who joined the last has returned. */
  lemma FlightsDoNotOverlap(es: seq<Event>, e: Event)
    requires Legal(Start(Flight), es) && Enabled(Exec(Start(Flight), es), e)
    ensures var s := Exec(Start(Flight), es);
            && s.finishes <= s.starts <= s.finishes + 1
            && (Next(s, e).starts > s.starts ==> s.finishes == s.starts && s.waiting == map[])
  {
    ExecInv(Start(Flight), es);
  }

  /** A return from Do between two flights shares the last one: only the runner's own return ends a flight. */
  lemma JoinersShareFlight(kind: Kind, es: seq<Event>, e: Event)
    requires Legal(Start(kind), es) && Enabled(Exec(Start(kind), es), e)
    requires Next(Exec(Start(kind), es), e).results != Exec(Start(kind), es).results
    ensures var s := Exec(Start(kind), es); var t := Next(s, e);
            && t.state == Finish && t.starts == t.finishes
            && t.results == s.results + [Return(s.running, t.finishes)]
            && (e == FuncDone <==> s.running == s.runner)
  {
    ExecInv(Start(kind), es);
    if e == Do || e == Retry {
      assert Exec(Start(kind), es).runner == INVALID;
    }
  }
}

/** CallOnce and SingleFlight with their fields updated in place, and their passes, proved against the protocol. */
module CallOnceObject {
  import opened Base
  import opened CallOnceProtocol

  lemma PassEvents(p: Protocol, inner: seq<Event>)
    requires Enabled(p, PassStart) && Legal(Next(p, PassStart), inner)
    requires Enabled(Exec(Next(p, PassStart), inner), PassEnd)
    ensures var es := [PassStart] + inner + [PassEnd];
            Legal(p, es) && Exec(p, es) == Next(Exec(Next(p, PassStart), inner), PassEnd)
  {
    ExecConcat(Next(p, PassStart), inner, [PassEnd]);
    var es := [PassStart] + inner + [PassEnd];
    assert es[1..] == inner + [PassEnd];
  }

  class CallOnceSchedule {
    const kind: Kind
    var state: CallState
    var suspendCidSet: set<int>
    var slaveCid: int
    // Where the suspended coroutines are; in the program this is their stacks.
    var waiting: map<int, nat>
    var runner: int
    // History, read by no decision of the object.
    var pass: bool
    var todo: set<int>
    var starts: nat
    var finishes: nat
    var results: seq<Return>

    function P(): Protocol
      reads this
    {
      Protocol(kind, state, suspendCidSet, waiting, slaveCid, runner, pass, todo, starts, finishes, results)
    }

    /** CoCallOnceInit or CoSingleFlightInit. */
    constructor (kind: Kind)
      ensures P() == Start(kind)
    {
      this.kind := kind;
      state, suspendCidSet, slaveCid, waiting, runner := Init, {}, INVALID, map[], INVALID;
      pass, todo, starts, finishes, results := false, {}, 0, 0, [];
    }

    /** The while loop of Do, up to its yield or its return. */
    method Loop(flight: nat)
      requires slaveCid >= 0
      modifies this
      ensures P() == Turn(old(P()), flight)
    {
      if state != Finish {
        suspendCidSet := suspendCidSet + {slaveCid};
        waiting, slaveCid := waiting[slaveCid := flight], INVALID;
        return;
      }
      suspendCidSet := suspendCidSet - {slaveCid};
      waiting, results := waiting - {slaveCid}, results + [Return(slaveCid, flight)];
    }

    method Act(e: Event)
      requires slaveCid >= 0 && Enabled(P(), e)
      modifies this
      ensures P() == Next(old(P()), e)
    {
      match e
      case Do =>
        if state == Init {
          state, runner, starts := InCall, slaveCid, starts + 1;
        } else {
          Loop(starts);
        }
      case Retry => Loop(waiting[slaveCid]);
      case FuncDone =>
        state, runner, finishes := Finish, INVALID, finishes + 1;
        results := results + [Return(slaveCid, starts)];
      case Leave => slaveCid := INVALID;
    }

    /** A coroutine runs: whatever calls it makes, it comes back to the master by blocking or leaving. */
    method Slice(calls: seq<Event>) returns (ghost es: seq<Event>)
      requires Inv(P()) && slaveCid >= 0 && pass
      modifies this
      ensures Inv(P()) && AtMaster(P()) && pass && todo == old(todo)
      ensures Legal(old(P()), es) && P() == Exec(old(P()), es)
    {
      ghost var p0 := P();
      es := [];
      var i := 0;
      while slaveCid != INVALID
        invariant Inv(P()) && 0 <= i <= |calls| && pass && todo == old(todo)
        invariant Legal(p0, es) && P() == Exec(p0, es)
        decreases slaveCid != INVALID, slaveCid in waiting, |calls| - i
      {
        var e := Leave;
        if slaveCid in waiting {
          e := Retry;
        } else if i < |calls| {
          i := i + 1;
          if Enabled(P(), calls[i - 1]) { e := calls[i - 1]; }
        }
        NextInv(P(), e);
        ExecConcat(p0, es, [e]);
        es := es + [e];
        Act(e);
      }
    }

    /** The loop both passes run over a copy of the suspended set. */
    method WakeAll(script: seq<seq<Event>>) returns (count: nat, ghost es: seq<Event>)
      requires Inv(P()) && AtMaster(P()) && pass && todo == suspendCidSet
      modifies this
      ensures Inv(P()) && AtMaster(P()) && pass && todo == {} && suspendCidSet == {}
      ensures Legal(old(P()), es) && P() == Exec(old(P()), es) && count == |old(suspendCidSet)|
    {
      ghost var p0 := P();
      count, es := 0, [];
      while todo != {}
        invariant Inv(P()) && AtMaster(P()) && pass && Legal(p0, es) && P() == Exec(p0, es)
        invariant count + |todo| == |p0.suspended|
        decreases |todo|
      {
        Inhabited(todo);
        var cid :| cid in todo;
        count := count + 1;
        NextInv(P(), PassWake(cid));
        slaveCid, todo := cid, todo - {cid};
        ExecConcat(p0, es, [PassWake(cid)]);
        ghost var more := Slice(if count <= |script| then script[count - 1] else []);
        ExecConcat(p0, es + [PassWake(cid)], more);
        es := es + [PassWake(cid)] + more;
      }
      PassEndInv(P());
    }

    method CoCallOnceResume(script: seq<seq<Event>>) returns (count: nat, ghost es: seq<Event>)
      requires kind == Once && Inv(P()) && AtMaster(P()) && !pass
      modifies this
      ensures Inv(P()) && AtMaster(P()) && !pass && Legal(old(P()), es) && P() == Exec(old(P()), es)
      ensures if old(state) == Finish then suspendCidSet == {} && count == |old(suspendCidSet)| else P() == old(P())
    {
      count, es := 0, [];
      if state != Finish { return; }
      if suspendCidSet == {} { return; }
      ghost var p0 := P();
      NextInv(p0, PassStart);
      pass, todo := true, suspendCidSet;
      ghost var inner;
      count, inner := WakeAll(script);
      NextInv(P(), PassEnd);
      PassEvents(p0, inner);
      es := [PassStart] + inner + [PassEnd];
      assert suspendCidSet == {};
      pass := false;
    }

    method CoSingleFlightResume(script: seq<seq<Event>>) returns (count: nat, ghost es: seq<Event>)
      requires kind == Flight && Inv(P()) && AtMaster(P()) && !pass
      modifies this
      ensures Inv(P()) && AtMaster(P()) && !pass && Legal(old(P()), es) && P() == Exec(old(P()), es)
      ensures if old(state) == Finish then state == Init && suspendCidSet == {} && count == |old(suspendCidSet)| else P() == old(P())
    {
      count, es := 0, [];
      if state != Finish { return; }
      ghost var p0 := P();
      if suspendCidSet == {} {
        NextInv(p0, PassReset);
        state := Init;
        es := [PassReset];
        assert es[1..] == [] && P() == Next(p0, PassReset);
        return;
      }
      NextInv(p0, PassStart);
      pass, todo := true, suspendCidSet;
      ghost var inner;
      count, inner := WakeAll(script);
      NextInv(P(), PassEnd);
      PassEvents(p0, inner);
      es := [PassStart] + inner + [PassEnd];
      assert suspendCidSet == {};
      state, pass := Init, false;
    }
  }
}
