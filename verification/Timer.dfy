/**
 The timer with delayed cancellation and the event loop that drives it, in small steps: time stands
 at any value at any step, ties in the heap are broken in any way, handlers register and cancel.
 */
module TimerLoop {
  import opened Base

  type Id = int  // uint64_t, counted up from 0

  datatype TimerData = TimerData(id: Id, deadline: int)

  /** Where the loop is: between two rounds, inside GetLastTimer, or handling events with its timer in hand. */
  datatype Phase = Idle | Popping | Handling

  datatype Fire = Fire(id: Id, time: int)

  /**
   timers is the heap, timerIds and cancelIds the two id sets. Histories: registered deadlines, ids ever
   cancelled, fires in order, ids discarded as cancelled, and ids lost with the timer in hand when
   epoll_wait failed.
   */
  datatype Loop = Loop(
    allocId: Id, timers: multiset<TimerData>, timerIds: set<Id>, cancelIds: set<Id>, hand: Option<TimerData>, phase: Phase,
    now: int, registered: map<Id, int>, cancelled: set<Id>, fires: seq<Fire>, discarded: set<Id>, lost: set<Id>)

  const START := Loop(0, multiset{}, {}, {}, None, Idle, 0, map[], {}, [], {}, {})

  datatype Event =
    | Clock(now: int)
    | Register(timeOut: int) | Cancel(id: Id)
    | BeginGet | PopCancelled(td: TimerData) | PopLive(td: TimerData) | PopEmpty
    | EpollFails
    | RunTimer

  predicate IsTop(s: Loop, td: TimerData) {
    td in s.timers && forall x :: x in s.timers ==> td.deadline <= x.deadline
  }

  predicate Expired(s: Loop, td: TimerData) { s.now >= td.deadline }

  predicate Enabled(s: Loop, e: Event) {
    match e
    case Clock(_) => true
    case Register(_) => s.phase != Popping
    case Cancel(id) => s.phase != Popping && id in s.timerIds
    case BeginGet => s.phase == Idle
    case PopCancelled(td) => s.phase == Popping && IsTop(s, td) && td.id in s.cancelIds
    case PopLive(td) => s.phase == Popping && IsTop(s, td) && td.id !in s.cancelIds
    case PopEmpty => s.phase == Popping && s.timers == multiset{}
    case EpollFails => s.phase == Handling
    case RunTimer => s.phase == Handling
  }

  /** The assertions GetLastTimer and Run evaluate. */
  predicate AssertsHold(s: Loop, e: Event) {
    match e
    case PopEmpty => s.timerIds == {} && s.cancelIds == {}
    case RunTimer => s.hand.Some? && Expired(s, s.hand.value) ==> s.hand.value.id in s.timerIds
    case _ => true
  }

  function RegisterStep(s: Loop, timeOut: int): Loop {
    var id := s.allocId + 1;
    s.(allocId := id, timers := s.timers + multiset{TimerData(id, s.now + timeOut)}, timerIds := s.timerIds + {id},
       registered := s.registered[id := s.now + timeOut])
  }

  function DiscardStep(s: Loop, td: TimerData): Loop {
    s.(timers := s.timers - multiset{td}, cancelIds := s.cancelIds - {td.id}, timerIds := s.timerIds - {td.id},
       discarded := s.discarded + {td.id})
  }

  /** Timer::Run on the timer in hand, or nothing when GetLastTimer found none. */
  function RunStep(s: Loop): Loop {
    var t := s.(hand := None, phase := Idle);
    if s.hand == None then t
    else
      var td := s.hand.value;
      if !Expired(s, td) then t.(timers := s.timers + multiset{td})
      else
        var u := t.(timerIds := s.timerIds - {td.id});
        if td.id in s.cancelIds then u.(cancelIds := s.cancelIds - {td.id}, discarded := s.discarded + {td.id})
        else u.(fires := s.fires + [Fire(td.id, s.now)])
  }

  function Next(s: Loop, e: Event): Loop
    requires Enabled(s, e)
  {
    match e
    case Clock(now) => s.(now := now)
    case Register(timeOut) => RegisterStep(s, timeOut)
    case Cancel(id) => s.(cancelIds := s.cancelIds + {id}, cancelled := s.cancelled + {id})
    case BeginGet => s.(phase := Popping)
    case PopCancelled(td) => DiscardStep(s, td)
    case PopLive(td) => s.(timers := s.timers - multiset{td}, hand := Some(td), phase := Handling)
    case PopEmpty => s.(phase := Handling)
    case EpollFails => s.(hand := None, phase := Idle, lost := if s.hand.Some? then s.lost + {s.hand.value.id} else s.lost)
    case RunTimer => RunStep(s)
  }

  // ---------- The invariant ----------

  function PendingIds(s: Loop): set<Id> { set td | td in s.timers :: td.id }
  function HandIds(s: Loop): set<Id> { if s.hand.Some? then {s.hand.value.id} else {} }
  function FiredIds(s: Loop): set<Id> { set f | f in s.fires :: f.id }

  /** The heap holds each timer once, with its registered deadline. */
  ghost predicate HeapInv(s: Loop) {
    && (forall td :: td in s.timers ==> s.timers[td] == 1)
    && (forall a, b :: a in s.timers && b in s.timers && a.id == b.id ==> a == b)
    && (forall td :: td in s.timers ==> td.id in s.registered && s.registered[td.id] == td.deadline)
    && (s.hand.Some? ==> s.hand.value.id in s.registered && s.registered[s.hand.value.id] == s.hand.value.deadline)
    && (s.phase != Handling ==> s.hand == None)
  }

  /** Every registered id is in exactly one place, and the two id sets say which timers are still to come. */
  ghost predicate IdSets(s: Loop, pending: set<Id>, hand: set<Id>, fired: set<Id>) {
    && s.timerIds == pending + hand + s.lost && pending !! hand && pending !! s.lost && hand !! s.lost
    && s.registered.Keys == s.timerIds + s.discarded + fired
    && s.timerIds !! s.discarded && s.timerIds !! fired && s.discarded !! fired
    && s.cancelIds <= s.timerIds && s.cancelled == s.cancelIds + s.discarded
    && (forall id :: id in s.registered ==> id <= s.allocId)
  }

  ghost predicate IdInv(s: Loop) { IdSets(s, PendingIds(s), HandIds(s), FiredIds(s)) }

  ghost predicate FireInv(s: Loop) {
    && (forall i, j :: 0 <= i < j < |s.fires| ==> s.fires[i].id != s.fires[j].id)
    && (forall f :: f in s.fires ==> f.id in s.registered && s.registered[f.id] <= f.time)
  }

  ghost predicate Inv(s: Loop) { HeapInv(s) && IdInv(s) && FireInv(s) }

  lemma RemovedPending(s: Loop, t: Loop, td: TimerData)
    requires HeapInv(s) && td in s.timers && t.timers == s.timers - multiset{td}
    ensures PendingIds(t) == PendingIds(s) - {td.id} && td.id in PendingIds(s)
    ensures forall x :: x in t.timers <==> x in s.timers && x != td
  {}

  lemma FiredMore(s: Loop, t: Loop, f: Fire)
    requires t.fires == s.fires + [f]
    ensures FiredIds(t) == FiredIds(s) + {f.id} && forall x :: x in t.fires <==> x in s.fires || x == f
  {}

  lemma RegisterIds(s: Loop, timeOut: int)
    requires IdInv(s) && Enabled(s, Register(timeOut))
    ensures IdInv(Next(s, Register(timeOut))) && s.allocId + 1 !in s.registered
  {}

  lemma RegisterInv(s: Loop, timeOut: int)
    requires Inv(s) && Enabled(s, Register(timeOut))
    ensures Inv(Next(s, Register(timeOut)))
  {
    RegisterIds(s, timeOut);
    var t := Next(s, Register(timeOut));
    assert forall x :: x in t.timers <==> x in s.timers || x == TimerData(s.allocId + 1, s.now + timeOut);
  }

  lemma PopIds(s: Loop, e: Event)
    requires HeapInv(s) && IdInv(s) && Enabled(s, e) && (e.PopCancelled? || e.PopLive?)
    ensures IdInv(Next(s, e))
  {
    RemovedPending(s, Next(s, e), e.td);
  }

  lemma PopHeap(s: Loop, e: Event)
    requires HeapInv(s) && Enabled(s, e) && (e.PopCancelled? || e.PopLive?)
    ensures HeapInv(Next(s, e))
  {}

  lemma PopInv(s: Loop, e: Event)
    requires Inv(s) && Enabled(s, e) && (e.PopCancelled? || e.PopLive?)
    ensures Inv(Next(s, e))
  {
    PopIds(s, e);
    PopHeap(s, e);
  }

  lemma PutBackIds(s: Loop)
    requires IdInv(s) && Enabled(s, RunTimer) && s.hand.Some? && !Expired(s, s.hand.value)
    ensures IdInv(Next(s, RunTimer)) && s.hand.value.id !in PendingIds(s)
  {}

  lemma PutBackHeap(s: Loop)
    requires HeapInv(s) && Enabled(s, RunTimer) && s.hand.Some? && !Expired(s, s.hand.value)
    requires s.hand.value.id !in PendingIds(s)
    ensures HeapInv(Next(s, RunTimer))
  {}

  lemma PutBackInv(s: Loop)
    requires Inv(s) && Enabled(s, RunTimer) && s.hand.Some? && !Expired(s, s.hand.value)
    ensures Inv(Next(s, RunTimer))
  {
    PutBackIds(s);
    PutBackHeap(s);
  }

  lemma ExpiredIds(s: Loop)
    requires IdInv(s) && Enabled(s, RunTimer) && s.hand.Some? && Expired(s, s.hand.value)
    ensures AssertsHold(s, RunTimer) && IdInv(Next(s, RunTimer))
  {}

  lemma ExpiredInv(s: Loop)
    requires Inv(s) && Enabled(s, RunTimer) && s.hand.Some? && Expired(s, s.hand.value)
    ensures AssertsHold(s, RunTimer) && Inv(Next(s, RunTimer))
  {
    ExpiredIds(s);
    var t, td := Next(s, RunTimer), s.hand.value;
    if td.id !in s.cancelIds {
      FiredMore(s, t, Fire(td.id, s.now));
      assert forall i :: 0 <= i < |s.fires| ==> s.fires[i].id in FiredIds(s);
    }
  }

  lemma OtherIds(s: Loop, e: Event)
    requires IdInv(s) && Enabled(s, e)
    requires e.Clock? || e.Cancel? || e.BeginGet? || e.PopEmpty? || e.EpollFails? || (e.RunTimer? && s.hand == None)
    ensures IdInv(Next(s, e))
  {}

  lemma OtherInv(s: Loop, e: Event)
    requires Inv(s) && Enabled(s, e)
    requires e.Clock? || e.Cancel? || e.BeginGet? || e.PopEmpty? || e.EpollFails? || (e.RunTimer? && s.hand == None)
    ensures Inv(Next(s, e))
  {
    OtherIds(s, e);
    var t := Next(s, e);
    assert t.timers == s.timers && t.fires == s.fires && t.registered == s.registered;
  }

  lemma NextInv(s: Loop, e: Event)
    requires Inv(s) && Enabled(s, e)
    ensures Inv(Next(s, e)) && (e != PopEmpty ==> AssertsHold(s, e))
  {
    match e
    case Register(timeOut) => RegisterInv(s, timeOut);
    case PopCancelled(_) => PopInv(s, e);
    case PopLive(_) => PopInv(s, e);
    case RunTimer =>
      if s.hand == None { OtherInv(s, e); }
      else if Expired(s, s.hand.value) { ExpiredInv(s); }
      else { PutBackInv(s); }
    case _ => OtherInv(s, e);
  }

  // ---------- Runs ----------

  ghost predicate Legal(s: Loop, es: seq<Event>)
    decreases es
  {
    es == [] || (Enabled(s, es[0]) && Legal(Next(s, es[0]), es[1..]))
  }

  ghost function Exec(s: Loop, es: seq<Event>): Loop
    requires Legal(s, es)
    decreases es
  {
    if es == [] then s else Exec(Next(s, es[0]), es[1..])
  }

  lemma {:induction false} ExecConcat(s: Loop, a: seq<Event>, b: seq<Event>)
    requires Legal(s, a) && Legal(Exec(s, a), b)
    ensures Legal(s, a + b) && Exec(s, a + b) == Exec(Exec(s, a), b)
    decreases a
  {
    if a == [] {
      assert a + b == b;
    } else {
      assert (a + b)[0] == a[0] && (a + b)[1..] == a[1..] + b;
      ExecConcat(Next(s, a[0]), a[1..], b);
    }
  }

  lemma {:induction false} ExecInv(s: Loop, es: seq<Event>)
    requires Inv(s) && Legal(s, es)
    ensures Inv(Exec(s, es))
    decreases es
  {
    if es == [] {
    } else {
      NextInv(s, es[0]);
      ExecInv(Next(s, es[0]), es[1..]);
    }
  }

  function One(b: bool): nat { if b then 1 else 0 }

  /**
   Conservation. In every run each registered timer is exactly one of pending, in hand, fired, discarded
   as cancelled, or lost to a failed epoll_wait; it fires at most once, at or after its deadline, and
   not if it was cancelled.
   */
  lemma Conservation(es: seq<Event>, id: Id)
    requires Legal(START, es) && id in Exec(START, es).registered
    ensures var s := Exec(START, es);
            && One(id in PendingIds(s)) + One(id in HandIds(s)) + One(id in FiredIds(s)) + One(id in s.discarded) + One(id in s.lost) == 1
            && (forall i, j :: 0 <= i < j < |s.fires| ==> s.fires[i].id != s.fires[j].id)
            && (forall f :: f in s.fires && f.id == id ==> f.time >= s.registered[id])
            && (id in s.cancelled ==> id !in FiredIds(s))
            && (id in s.discarded ==> id in s.cancelled)
  {
    ExecInv(START, es);
  }

  /** Cancel records its id and nothing else. */
  lemma CancelEffect(s: Loop, id: Id)
    requires Enabled(s, Cancel(id))
    ensures var r := Next(s, Cancel(id));
            r == s.(cancelIds := r.cancelIds, cancelled := r.cancelled) && forall x :: x in r.cancelIds <==> x in s.cancelIds || x == id
  {}

  lemma {:induction false} CancelledFrom(s: Loop, es: seq<Event>, id: Id)
    requires Legal(s, es)
    ensures id in Exec(s, es).cancelled <==> id in s.cancelled || Cancel(id) in es
    decreases es
  {
    if es == [] {
    } else {
      CancelledFrom(Next(s, es[0]), es[1..], id);
      assert Cancel(id) in es <==> es[0] == Cancel(id) || Cancel(id) in es[1..];
    }
  }

  /** In every run exactly the ids that were cancelled count as cancelled, and no other timer is ever discarded. */
  lemma CancelledIff(es: seq<Event>, id: Id)
    requires Legal(START, es)
    ensures id in Exec(START, es).cancelled <==> Cancel(id) in es
    ensures id in Exec(START, es).discarded || id in Exec(START, es).cancelIds ==> Cancel(id) in es
  {
    CancelledFrom(START, es, id);
    ExecInv(START, es);
  }

  lemma {:induction false} CancelledStays(s: Loop, es: seq<Event>, id: Id)
    requires Inv(s) && Legal(s, es) && id in s.cancelled
    ensures id !in FiredIds(Exec(s, es))
    decreases es
  {
    if es == [] {
    } else {
      NextInv(s, es[0]);
      CancelledStays(Next(s, es[0]), es[1..], id);
    }
  }

  /** A timer cancelled before it fired never fires, however the run goes on. */
  lemma NeverAfterCancel(before: seq<Event>, id: Id, after: seq<Event>)
    requires Legal(START, before) && Enabled(Exec(START, before), Cancel(id))
    requires Legal(Next(Exec(START, before), Cancel(id)), after)
    ensures id !in FiredIds(Exec(Next(Exec(START, before), Cancel(id)), after))
  {
    ExecInv(START, before);
    NextInv(Exec(START, before), Cancel(id));
    CancelledStays(Next(Exec(START, before), Cancel(id)), after, id);
  }

  /** Register makes a timer with an id of its own that is due timeOut from now, and touches no other. */
  lemma RegisterEffect(s: Loop, timeOut: int)
    requires Inv(s) && Enabled(s, Register(timeOut))
    ensures var r, id := Next(s, Register(timeOut)), s.allocId + 1;
            && id !in s.registered && r.allocId == id && r.timerIds == s.timerIds + {id}
            && r.timers == s.timers + multiset{TimerData(id, s.now + timeOut)} && r.registered == s.registered[id := s.now + timeOut]
            && r.hand == s.hand && r.phase == s.phase && r.now == s.now && r.cancelIds == s.cancelIds && r.fires == s.fires
  {
    RegisterIds(s, timeOut);
  }

  /** Run fires the timer in hand exactly if it is due and not cancelled, and keeps it exactly if it is not due. */
  lemma RunEffect(s: Loop)
    requires Enabled(s, RunTimer) && s.hand.Some?
    ensures var r, td := Next(s, RunTimer), s.hand.value; var due, stopped := s.now >= td.deadline, td.id in s.cancelIds;
            && r.hand == None && r.phase == Idle
            && r.fires == s.fires + (if due && !stopped then [Fire(td.id, s.now)] else [])
            && r.timers == s.timers + (if due then multiset{} else multiset{td})
            && r.timerIds == s.timerIds - (if due then {td.id} else {})
            && r.cancelIds == s.cancelIds - (if due then {td.id} else {})
  {}

  lemma DeadlineStep(s: Loop, e: Event, id: Id)
    requires Inv(s) && Enabled(s, e) && id in s.registered
    ensures id in Next(s, e).registered && Next(s, e).registered[id] == s.registered[id]
  {
    if e.Register? { RegisterIds(s, e.timeOut); }
  }

  lemma {:induction false} DeadlineStays(s: Loop, es: seq<Event>, id: Id)
    requires Inv(s) && Legal(s, es) && id in s.registered
    ensures Inv(Exec(s, es)) && id in Exec(s, es).registered && Exec(s, es).registered[id] == s.registered[id]
    decreases es
  {
    if es == [] {
    } else {
      NextInv(s, es[0]);
      DeadlineStep(s, es[0], id);
      DeadlineStays(Next(s, es[0]), es[1..], id);
    }
  }

  /** Timer id is due at the given time wherever it is, and has not fired before. */
  ghost predicate DueAt(s: Loop, id: Id, due: int) {
    && (forall td :: td in s.timers && td.id == id ==> td.deadline == due)
    && (s.hand.Some? && s.hand.value.id == id ==> s.hand.value.deadline == due)
    && (forall f :: f in s.fires && f.id == id ==> f.time >= due)
  }

  lemma DueWhenRegistered(s: Loop, id: Id)
    requires Inv(s) && id in s.registered
    ensures DueAt(s, id, s.registered[id])
  {}

  lemma NeverEarlyFrom(s: Loop, timeOut: int, after: seq<Event>)
    requires Inv(s) && Enabled(s, Register(timeOut)) && Legal(Next(s, Register(timeOut)), after)
    ensures s.allocId + 1 !in s.registered
    ensures DueAt(Exec(Next(s, Register(timeOut)), after), s.allocId + 1, s.now + timeOut)
  {
    RegisterEffect(s, timeOut);
    NextInv(s, Register(timeOut));
    var r := Next(s, Register(timeOut));
    DeadlineStays(r, after, s.allocId + 1);
    DueWhenRegistered(Exec(r, after), s.allocId + 1);
  }

  /** However the run goes on, a timer keeps the deadline it was started with and does not fire before it. */
  lemma NeverEarly(before: seq<Event>, timeOut: int, after: seq<Event>)
    requires Legal(START, before) && Enabled(Exec(START, before), Register(timeOut))
    requires Legal(Next(Exec(START, before), Register(timeOut)), after)
    ensures var s := Exec(START, before);
            s.allocId + 1 !in s.registered
            && DueAt(Exec(Next(s, Register(timeOut)), after), s.allocId + 1, s.now + timeOut)
  {
    ExecInv(START, before);
    NeverEarlyFrom(Exec(START, before), timeOut, after);
  }

  /** No epoll_wait of es, run from s, fails with a timer in hand. */
  ghost predicate NoLoss(s: Loop, es: seq<Event>)
    requires Legal(s, es)
    decreases es
  {
    es == [] || (!(es[0] == EpollFails && s.hand.Some?) && NoLoss(Next(s, es[0]), es[1..]))
  }

  lemma LostStep(s: Loop, e: Event)
    requires Enabled(s, e)
    ensures Next(s, e).lost == {} <==> s.lost == {} && !(e == EpollFails && s.hand.Some?)
  {}

  lemma {:induction false} LostIff(s: Loop, es: seq<Event>)
    requires Legal(s, es)
    ensures Exec(s, es).lost == {} <==> s.lost == {} && NoLoss(s, es)
    decreases es
  {
    if es == [] {
    } else {
      LostStep(s, es[0]);
      LostIff(Next(s, es[0]), es[1..]);
    }
  }

  lemma EmptyIff(s: Loop)
    requires Inv(s) && s.timers == multiset{} && s.hand == None
    ensures s.timerIds == {} && s.cancelIds == {} <==> s.lost == {}
  {}

  /**
   The assertions of GetLastTimer and Run hold in every step a run can take next, except that an empty
   heap meets its two assertions exactly when no epoll_wait before failed with a timer in hand.
   */
  lemma AssertionsIff(es: seq<Event>, e: Event)
    requires Legal(START, es) && Enabled(Exec(START, es), e)
    ensures AssertsHold(Exec(START, es), e) <==> (e == PopEmpty ==> NoLoss(START, es))
  {
    ExecInv(START, es);
    NextInv(Exec(START, es), e);
    LostIff(START, es);
    if e == PopEmpty { EmptyIff(Exec(START, es)); }
  }

  /** One more event of a run from START that has reached s. */
  lemma Extend(es: seq<Event>, s: Loop, e: Event) returns (es': seq<Event>, s': Loop)
    requires Legal(START, es) && Exec(START, es) == s && Enabled(s, e)
    ensures Legal(START, es') && Exec(START, es') == s' == Next(s, e)
  {
    ExecConcat(START, es, [e]);
    es', s' := es + [e], Next(s, e);
  }

  /** One failed epoll_wait with a timer in hand is enough for the next empty GetLastTimer to abort. */
  lemma FailedWaitLosesTimer() returns (es: seq<Event>)
    ensures Legal(START, es) && Enabled(Exec(START, es), PopEmpty) && !AssertsHold(Exec(START, es), PopEmpty)
  {
    var s := START;
    es := [];
    es, s := Extend(es, s, Register(5));
    es, s := Extend(es, s, BeginGet);
    assert s.timers == multiset{TimerData(1, 5)};
    es, s := Extend(es, s, PopLive(TimerData(1, 5)));
    es, s := Extend(es, s, EpollFails);
    es, s := Extend(es, s, BeginGet);
    assert s.timers == multiset{} && 1 in s.timerIds;
  }

  // ---------- Time ----------

  /** TimeOutMs. */
  function TimeOutMs(td: TimerData, now: int): (ms: int)
    ensures ms >= 0 && now + ms >= td.deadline
    ensures ms == 0 || now + ms == td.deadline + 1
  {
    var temp := td.deadline + 1 - now;
    if temp > 0 then temp else 0
  }
}

/** The Timer class with its fields updated in place, and one round of EventLoop::Run. */
module TimerObject {
  import opened Base
  import opened TimerLoop

  predicate ByHandler(es: seq<Event>) {
    forall e :: e in es ==> e.Register? || e.Cancel? || e.Clock?
  }

  /** The events of one call of GetLastTimer. */
  predicate InGet(es: seq<Event>) {
    forall e :: e in es ==> e.BeginGet? || e.PopCancelled? || e.PopLive? || e.PopEmpty?
  }

  /** The events of a round: those of GetLastTimer, what handlers do, one Run, and what its handler does. */
  ghost predicate OneRun(es: seq<Event>) {
    exists get, events, last :: es == get + events + ([RunTimer] + last) && InGet(get) && ByHandler(events) && ByHandler(last)
  }

  lemma RoundsMore(l0: Loop, es: seq<Event>, more: seq<Event>)
    requires Legal(l0, es) && Legal(Exec(l0, es), more) && EpollFails !in es && OneRun(more)
    ensures Legal(l0, es + more) && Exec(l0, es + more) == Exec(Exec(l0, es), more) && EpollFails !in es + more
  {
    ExecConcat(l0, es, more);
  }

  lemma RoundEvents(l0: Loop, get: seq<Event>, events: seq<Event>, last: seq<Event>)
    requires Legal(l0, get) && Legal(Exec(l0, get), events)
    requires Legal(Exec(Exec(l0, get), events), [RunTimer] + last)
    requires InGet(get) && ByHandler(events) && ByHandler(last)
    ensures var es := get + events + ([RunTimer] + last);
            Legal(l0, es) && Exec(l0, es) == Exec(Exec(Exec(l0, get), events), [RunTimer] + last) && OneRun(es)
  {
    ExecConcat(l0, get, events);
    ExecConcat(l0, get + events, [RunTimer] + last);
  }

  lemma OneMore(l0: Loop, l: Loop, es: seq<Event>, e: Event)
    requires Inv(l) && Legal(l0, es) && l == Exec(l0, es) && Enabled(l, e) && (e.Register? || e.Cancel? || e.Clock?)
    ensures Legal(l0, es + [e]) && Exec(l0, es + [e]) == Next(l, e) && Inv(Next(l, e))
    ensures Next(l, e).phase == l.phase && Next(l, e).hand == l.hand && Next(l, e).lost == l.lost
  {
    ExecConcat(l0, es, [e]);
    NextInv(l, e);
  }

  function PopEvent(live: bool, td: TimerData): Event { if live then PopLive(td) else PopCancelled(td) }

  /** Of the timers that were in the heap at l0, those missing in l were cancelled. */
  ghost predicate OnlyCancelledLeft(l0: Loop, l: Loop) {
    && (forall x :: x in l.timers ==> x in l0.timers)
    && (forall x :: x in l0.timers && x !in l.timers ==> x.id in l0.cancelIds)
    && (forall x :: x in l.timers ==> (x.id in l0.cancelIds <==> x.id in l.cancelIds))
  }

  /** Inside GetLastTimer only cancelled timers have left the heap since it began at l0. */
  ghost predicate GetTurn(l0: Loop, l: Loop, es: seq<Event>) {
    && InGet(es) && Inv(l) && l.phase == Popping && l.lost == {} && l.hand == None && Legal(l0, es) && l == Exec(l0, es)
    && OnlyCancelledLeft(l0, l)
  }

  /** What GetLastTimer promises of the state l it leaves, begun in l0. */
  ghost predicate LastTimer(l0: Loop, l: Loop, ok: bool) {
    && l.phase == Handling && l.lost == {} && (ok <==> l.hand.Some?)
    && if ok then
         && l.hand.value in l0.timers && l.hand.value.id !in l0.cancelIds
         && (forall x :: x in l0.timers && x.id !in l0.cancelIds ==> l.hand.value.deadline <= x.deadline)
         && (forall x :: x in l.timers ==> x in l0.timers && x != l.hand.value)
         && (forall x :: x in l0.timers && x !in l.timers && x != l.hand.value ==> x.id in l0.cancelIds)
       else
         && l.timers == multiset{} && l.timerIds == {} && l.cancelIds == {}
         && forall x :: x in l0.timers ==> x.id in l0.cancelIds
  }

  lemma GetTurnStart(l0: Loop)
    requires Inv(l0) && l0.phase == Idle && l0.lost == {}
    ensures GetTurn(l0, l0.(phase := Popping), [BeginGet])
  {
    NextInv(l0, BeginGet);
    assert Exec(l0, [BeginGet]) == Next(l0, BeginGet);
  }

  lemma DiscardFrame(l0: Loop, l: Loop, td: TimerData)
    requires OnlyCancelledLeft(l0, l) && HeapInv(l) && td in l.timers && td.id in l.cancelIds
    ensures OnlyCancelledLeft(l0, DiscardStep(l, td)) && |DiscardStep(l, td).timers| < |l.timers|
  {
    RemovedPending(l, DiscardStep(l, td), td);
  }

  lemma GetMore(l0: Loop, l: Loop, es: seq<Event>, e: Event)
    requires InGet(es) && Legal(l0, es) && l == Exec(l0, es) && Enabled(l, e) && InGet([e])
    ensures InGet(es + [e]) && Legal(l0, es + [e]) && Exec(l0, es + [e]) == Next(l, e)
  {
    ExecConcat(l0, es, [e]);
    assert e in [e];
  }

  lemma GetTurnDiscard(l0: Loop, l: Loop, es: seq<Event>, td: TimerData)
    requires GetTurn(l0, l, es) && Enabled(l, PopCancelled(td))
    ensures GetTurn(l0, Next(l, PopCancelled(td)), es + [PopCancelled(td)])
    ensures |Next(l, PopCancelled(td)).timers| < |l.timers|
  {
    GetMore(l0, l, es, PopCancelled(td));
    NextInv(l, PopCancelled(td));
    DiscardFrame(l0, l, td);
  }

  lemma GetTurnLive(l0: Loop, l: Loop, es: seq<Event>, td: TimerData)
    requires GetTurn(l0, l, es) && Enabled(l, PopLive(td))
    ensures InGet(es + [PopLive(td)]) && Legal(l0, es + [PopLive(td)]) && Exec(l0, es + [PopLive(td)]) == Next(l, PopLive(td))
    ensures Inv(Next(l, PopLive(td))) && LastTimer(l0, Next(l, PopLive(td)), true)
  {
    ExecConcat(l0, es, [PopLive(td)]);
    NextInv(l, PopLive(td));
    RemovedPending(l, Next(l, PopLive(td)), td);
  }

  lemma GetTurnEmpty(l0: Loop, l: Loop, es: seq<Event>)
    requires GetTurn(l0, l, es) && l.timers == multiset{}
    ensures Legal(l0, es + [PopEmpty]) && Exec(l0, es + [PopEmpty]) == Next(l, PopEmpty)
    ensures Inv(Next(l, PopEmpty)) && LastTimer(l0, Next(l, PopEmpty), false)
  {
    ExecConcat(l0, es, [PopEmpty]);
    NextInv(l, PopEmpty);
    EmptyIff(l);
  }

  lemma {:induction false} MinExists(timers: multiset<TimerData>)
    requires timers != multiset{}
    ensures exists td :: td in timers && forall x :: x in timers ==> td.deadline <= x.deadline
    decreases |timers|
  {
    var a :| a in timers;
    var rest := timers - multiset{a};
    assert forall x :: x in timers <==> x in rest || x == a;
    if rest == multiset{} {
      assert a in timers && forall x :: x in timers ==> a.deadline <= x.deadline;
    } else {
      MinExists(rest);
      var b :| b in rest && forall x :: x in rest ==> b.deadline <= x.deadline;
      var m := if a.deadline <= b.deadline then a else b;
      assert m in timers && forall x :: x in timers ==> m.deadline <= x.deadline;
    }
  }

  class Timer {
    var allocId: Id
    var timerIds: set<Id>
    var cancelIds: set<Id>
    var timers: multiset<TimerData>
    // The loop's own variables and the clock.
    var hand: Option<TimerData>
    var phase: Phase
    var now: int
    // History, read by no decision of the timer.
    var registered: map<Id, int>
    var cancelled: set<Id>
    var fires: seq<Fire>
    var discarded: set<Id>
    var lost: set<Id>

    function L(): Loop
      reads this
    {
      Loop(allocId, timers, timerIds, cancelIds, hand, phase, now, registered, cancelled, fires, discarded, lost)
    }

    constructor ()
      ensures L() == START
    {
      allocId, timerIds, cancelIds, timers, hand, phase, now := 0, {}, {}, multiset{}, None, Idle, 0;
      registered, cancelled, fires, discarded, lost := map[], {}, [], {}, {};
    }

    method Register(timeOutMs: int) returns (id: Id)
      requires phase != Popping
      modifies this
      ensures L() == RegisterStep(old(L()), timeOutMs) && id == allocId
    {
      id := allocId + 1;
      var timerData := TimerData(id, now + timeOutMs);
      allocId, timers, timerIds := id, timers + multiset{timerData}, timerIds + {id};
      registered := registered[id := timerData.deadline];
    }

    method Cancel(id: Id)
      requires Enabled(L(), Event.Cancel(id))
      modifies this
      ensures L() == Next(old(L()), Event.Cancel(id))
    {
      assert id in timerIds;
      cancelIds, cancelled := cancelIds + {id}, cancelled + {id};
    }

    /** timers_.top(): some entry with the least deadline. */
    method Top() returns (td: TimerData)
      requires timers != multiset{}
      ensures IsTop(L(), td)
    {
      MinExists(timers);
      td :| td in timers && forall x :: x in timers ==> td.deadline <= x.deadline;
    }

    /** The branch of GetLastTimer for a cancelled top. */
    method DiscardTop(td: TimerData)
      requires td in timers
      modifies this
      ensures L() == DiscardStep(old(L()), td)
    {
      timers := timers - multiset{td};
      cancelIds, timerIds, discarded := cancelIds - {td.id}, timerIds - {td.id}, discarded + {td.id};
    }

    /** The branch of GetLastTimer for a live top. */
    method TakeTop(td: TimerData)
      requires Enabled(L(), PopLive(td))
      modifies this
      ensures L() == Next(old(L()), PopLive(td))
    {
      timers, hand, phase := timers - multiset{td}, Some(td), Handling;
    }

    /** One turn of GetLastTimer's loop. */
    method PopTop() returns (live: bool, td: TimerData)
      requires timers != multiset{} && phase == Popping
      modifies this
      ensures Enabled(old(L()), PopEvent(live, td)) && L() == Next(old(L()), PopEvent(live, td))
    {
      td := Top();
      live := td.id !in cancelIds;
      if live { TakeTop(td); } else { DiscardTop(td); }
    }

    method SetPhase(p: Phase)
      modifies `phase
      ensures L() == old(L()).(phase := p)
    {
      phase := p;
    }

    /** The loop of GetLastTimer. */
    method PopLoop(ghost l0: Loop, ghost es0: seq<Event>) returns (ok: bool, ghost es: seq<Event>)
      requires GetTurn(l0, L(), es0)
      modifies this
      ensures if ok then InGet(es) && Legal(l0, es) && L() == Exec(l0, es) && Inv(L()) && LastTimer(l0, L(), true)
              else GetTurn(l0, L(), es) && timers == multiset{}
    {
      es := es0;
      while timers != multiset{}
        invariant GetTurn(l0, L(), es)
        decreases |timers|
      {
        ghost var l := L();
        var td;
        ok, td := PopTop();
        if ok { GetTurnLive(l0, l, es, td); } else { GetTurnDiscard(l0, l, es, td); }
        es := es + [PopEvent(ok, td)];
        if ok { return; }
      }
      ok := false;
    }

    /** GetLastTimer: discards cancelled timers until it finds a live one, whose deadline is least of all live ones. */
    method GetLastTimer() returns (ok: bool, ghost es: seq<Event>)
      requires Inv(L()) && phase == Idle && lost == {}
      modifies this
      ensures Legal(old(L()), es) && L() == Exec(old(L()), es) && Inv(L()) && LastTimer(old(L()), L(), ok)
      ensures InGet(es)
    {
      ghost var l0 := L();
      GetTurnStart(l0);
      SetPhase(Popping);
      ok, es := PopLoop(l0, [BeginGet]);
      if ok { return; }
      GetTurnEmpty(l0, L(), es);
      assert timerIds == {};
      assert cancelIds == {};
      es := es + [PopEmpty];
      SetPhase(Handling);
    }

    /** Timer::Run on the timer in hand; fired means its handler is called. */
    method Run() returns (fired: bool)
      requires phase == Handling && hand.Some? && AssertsHold(L(), RunTimer)
      modifies this
      ensures L() == RunStep(old(L()))
      ensures fired <==> old(now) >= old(hand).value.deadline && old(hand).value.id !in old(cancelIds)
    {
      var td := hand.value;
      hand, phase := None, Idle;
      if !(now >= td.deadline) {
        timers := timers + multiset{td};
        return false;
      }
      assert td.id in timerIds;
      timerIds := timerIds - {td.id};
      if td.id in cancelIds {
        cancelIds, discarded := cancelIds - {td.id}, discarded + {td.id};
        return false;
      }
      fires := fires + [Fire(td.id, now)];
      return true;
    }

    /** One call of a handler, or of the code before the loop. */
    method Call(e: Event)
      requires Enabled(L(), e) && (e.Register? || e.Cancel? || e.Clock?)
      modifies this
      ensures L() == Next(old(L()), e)
    {
      match e
      case Register(timeOut) => var id := Register(timeOut);
      case Cancel(id) => Cancel(id);
      case Clock(time) => now := time;
    }

    /** What a handler, or the code before the loop, may do. */
    method Handle(calls: seq<Event>) returns (ghost es: seq<Event>)
      requires Inv(L()) && phase != Popping && lost == {}
      modifies this
      ensures Legal(old(L()), es) && L() == Exec(old(L()), es) && ByHandler(es)
      ensures Inv(L()) && phase == old(phase) && hand == old(hand) && lost == {}
    {
      ghost var l0 := L();
      var i := 0;
      es := [];
      while i < |calls|
        invariant Inv(L()) && phase == old(phase) && hand == old(hand) && lost == {}
        invariant Legal(l0, es) && L() == Exec(l0, es) && ByHandler(es)
      {
        var e := calls[i];
        if Enabled(L(), e) && (e.Register? || e.Cancel? || e.Clock?) {
          OneMore(l0, L(), es, e);
          Call(e);
          es := es + [e];
        }
        i := i + 1;
      }
    }

    /** The end of a round: the timer GetLastTimer handed out is run, and its handler if it fires. */
    method FinishRound(hasTimer: bool, handler: seq<Event>) returns (ghost es: seq<Event>)
      requires Inv(L()) && phase == Handling && lost == {} && (hasTimer <==> hand.Some?)
      modifies this
      ensures Legal(old(L()), [RunTimer] + es) && L() == Exec(old(L()), [RunTimer] + es) && ByHandler(es)
      ensures Inv(L()) && phase == Idle && lost == {}
    {
      NextInv(L(), RunTimer);
      es := [];
      ghost var l1 := RunStep(L());
      if hasTimer {
        var fired := Run();
        if fired { es := Handle(handler); }
      } else {
        phase := Idle;
      }
      assert ([RunTimer] + es)[1..] == es;
    }

    /**
     A round of EventLoop::Run whose epoll_wait does not fail: a GetLastTimer that succeeds is followed
     by exactly one Run of its timer, whatever the handlers do in between and after.
     */
    method Round(events: seq<Event>, handler: seq<Event>) returns (ghost es: seq<Event>)
      requires Inv(L()) && phase == Idle && lost == {}
      modifies this
      ensures Legal(old(L()), es) && L() == Exec(old(L()), es) && OneRun(es)
      ensures Inv(L()) && phase == Idle && lost == {}
    {
      ghost var get, events', last;
      var hasTimer: bool;
      hasTimer, get := GetLastTimer();
      events' := Handle(events);
      last := FinishRound(hasTimer, handler);
      RoundEvents(old(L()), get, events', last);
      es := get + events' + ([RunTimer] + last);
    }

    /** The loop of EventLoop::Run for n rounds. */
    method Rounds(n: nat, events: seq<seq<Event>>, handlers: seq<seq<Event>>) returns (ghost es: seq<Event>)
      requires Inv(L()) && phase == Idle && lost == {} && |events| == |handlers| == n
      modifies this
      ensures Legal(old(L()), es) && L() == Exec(old(L()), es) && EpollFails !in es
      ensures Inv(L()) && phase == Idle && lost == {}
    {
      ghost var l0 := L();
      var i := 0;
      es := [];
      while i < n
        invariant Inv(L()) && phase == Idle && lost == {} && 0 <= i <= n
        invariant Legal(l0, es) && L() == Exec(l0, es) && EpollFails !in es
      {
        ghost var more := Round(events[i], handlers[i]);
        RoundsMore(l0, es, more);
        es := es + more;
        i := i + 1;
      }
    }
  }
}
