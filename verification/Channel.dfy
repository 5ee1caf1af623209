/**
 A Channel built from two semaphores and a list, among any number of senders and receivers: every
 interleaving of Send, Receive, spurious wake-ups and the passes of CoSemaphoreResume.
 */
module ChannelProtocol {
  import opened Base
  import opened CoSemaphore

  type Value = int

  datatype Op = Send(value: Value) | Receive

  datatype Side = IdleSem | FillSem

  /** sent and received are the histories of completed calls. pass and todo belong to the running pass. */
  datatype Protocol = Protocol(
    idle: Semaphore, fill: Semaphore, buffer: seq<Value>, inCall: map<int, Op>, running: int,
    pass: Option<Side>, todo: set<int>, sent: seq<Value>, received: seq<Value>)

  function Start(bufferSize: nat): Protocol {
    Protocol(Semaphore(bufferSize, {}), Semaphore(0, {}), [], map[], INVALID, None, {}, [], [])
  }

  datatype Event = Wake(cid: int) | PassStart(side: Side) | PassWake(cid: int) | PassEnd | Call(op: Op) | Retry | Leave

  predicate AtMaster(s: Protocol) { s.running == INVALID }
  predicate Outside(s: Protocol) { s.running >= 0 && s.running !in s.inCall }

  function Sem(s: Protocol, side: Side): Semaphore { if side == IdleSem then s.idle else s.fill }
  function SideOf(op: Op): Side { if op.Send? then IdleSem else FillSem }

  predicate Enabled(s: Protocol, e: Event) {
    match e
    case Wake(c) => AtMaster(s) && s.pass == None && c >= 0
    case PassStart(side) => AtMaster(s) && s.pass == None && Sem(s, side).value != 0
    case PassWake(c) => AtMaster(s) && s.pass.Some? && Sem(s, s.pass.value).value > 0 && c in s.todo
    case PassEnd => AtMaster(s) && s.pass.Some? && (Sem(s, s.pass.value).value <= 0 || s.todo == {})
    case Call(_) => Outside(s)
    case Retry => s.running >= 0 && s.running in s.inCall
    case Leave => Outside(s)
  }

  /** What the list and the semaphores demand of the step: pop_front and front need a non-empty list. */
  predicate Safe(s: Protocol, e: Event) {
    var op := if e.Call? then Some(e.op) else if e.Retry? && s.running in s.inCall then Some(s.inCall[s.running]) else None;
    (op == Some(Receive) && Passes(s.fill) ==> s.buffer != []) && s.idle.value >= 0 && s.fill.value >= 0
  }

  /** One turn of Send or Receive by the running coroutine: it completes, or blocks in its semaphore. */
  function Turn(s: Protocol, op: Op): Protocol {
    var c := s.running;
    if !Passes(Sem(s, SideOf(op))) then
      var t := s.(inCall := s.inCall[c := op], running := INVALID);
      if op.Send? then t.(idle := WaitTurn(s.idle, c)) else t.(fill := WaitTurn(s.fill, c))
    else
      match op
      case Send(v) =>
        s.(idle := WaitTurn(s.idle, c), buffer := s.buffer + [v], fill := Post(s.fill), inCall := s.inCall - {c}, sent := s.sent + [v])
      case Receive =>
        s.(fill := WaitTurn(s.fill, c), buffer := if s.buffer == [] then [] else s.buffer[1..], idle := Post(s.idle),
           inCall := s.inCall - {c}, received := if s.buffer == [] then s.received else s.received + [s.buffer[0]])
  }

  function Next(s: Protocol, e: Event): Protocol
    requires Enabled(s, e)
  {
    match e
    case Wake(c) => s.(running := c)
    case PassStart(side) => s.(pass := Some(side), todo := Sem(s, side).waiters)
    case PassWake(c) => s.(running := c, todo := s.todo - {c})
    case PassEnd => s.(pass := None, todo := {})
    case Call(op) => Turn(s, op)
    case Retry => Turn(s, s.inCall[s.running])
    case Leave => s.(running := INVALID)
  }

  ghost predicate BufferInv(s: Protocol, size: nat) {
    s.fill.value == |s.buffer| && s.idle.value + |s.buffer| == size && s.idle.value >= 0 && s.sent == s.received + s.buffer
  }

  ghost predicate WaiterInv(s: Protocol) {
    && (forall c :: c in s.idle.waiters <==> c in s.inCall && s.inCall[c].Send?)
    && (forall c :: c in s.fill.waiters <==> c in s.inCall && s.inCall[c].Receive?)
    && (forall c :: c in s.inCall ==> c >= 0)
    && s.running >= INVALID
  }

  ghost predicate PassInv(s: Protocol) {
    s.pass.Some? ==>
      var sem := Sem(s, s.pass.value);
      && s.todo <= sem.waiters && s.running !in s.todo
      && (s.running >= 0 || sem.value > 0 ==> sem.waiters <= s.todo + {s.running})
  }

  ghost predicate Inv(s: Protocol, size: nat) {
    BufferInv(s, size) && WaiterInv(s) && PassInv(s)
  }

  lemma TurnInv(s: Protocol, op: Op, size: nat)
    requires Inv(s, size) && s.running >= 0 && (s.running in s.inCall ==> s.inCall[s.running] == op)
    ensures Inv(Turn(s, op), size)
  {
    if Passes(Sem(s, SideOf(op))) && op.Receive? {
      assert s.buffer == [s.buffer[0]] + s.buffer[1..];
    }
  }

  lemma NextInv(s: Protocol, e: Event, size: nat)
    requires Inv(s, size) && Enabled(s, e)
    ensures Safe(s, e) && Inv(Next(s, e), size)
  {
    match e
    case Call(op) => TurnInv(s, op, size);
    case Retry => TurnInv(s, s.inCall[s.running], size);
    case _ =>
  }

  /** The running coroutine is at, or again at, the call op. */
  predicate AtCall(s: Protocol, e: Event, op: Op) {
    Enabled(s, e) && (e == Call(op) || (e == Retry && s.inCall[s.running] == op))
  }

  /** The caller is blocked in op, which has changed neither the list nor what was sent and received. */
  predicate Blocked(s: Protocol, r: Protocol, op: Op) {
    && r.inCall == s.inCall[s.running := op] && r.running == INVALID && r.buffer == s.buffer
    && r.sent == s.sent && r.received == s.received && r.idle.value == s.idle.value && r.fill.value == s.fill.value
  }

  /** Send puts its value at the end of the list as soon as there is room, and blocks until then. */
  lemma SendEffect(s: Protocol, e: Event, v: Value, size: nat)
    requires Inv(s, size) && AtCall(s, e, Op.Send(v))
    ensures var r := Next(s, e);
            if |s.buffer| < size then
              && r.buffer == s.buffer + [v] && r.sent == s.sent + [v] && r.received == s.received
              && r.running == s.running && r.inCall == s.inCall - {s.running}
            else Blocked(s, r, Op.Send(v)) && s.running in r.idle.waiters
  {}

  /** Receive takes the value at the head of the list as soon as there is one, and blocks until then. */
  lemma ReceiveEffect(s: Protocol, e: Event, size: nat)
    requires Inv(s, size) && AtCall(s, e, Op.Receive)
    ensures var r := Next(s, e);
            if s.buffer != [] then
              && r.buffer == s.buffer[1..] && r.received == s.received + [s.buffer[0]] && r.sent == s.sent
              && r.running == s.running && r.inCall == s.inCall - {s.running}
            else Blocked(s, r, Op.Receive) && s.running in r.fill.waiters
  {}

  ghost predicate Legal(s: Protocol, es: seq<Event>)
    decreases es
  {
    es == [] || (Enabled(s, es[0]) && Legal(Next(s, es[0]), es[1..]))
  }

  ghost function Exec(s: Protocol, es: seq<Event>): Protocol
    requires Legal(s, es)
    decreases es
  {
    if es == [] then s else Exec(Next(s, es[0]), es[1..])
  }

  lemma {:induction false} ExecInv(s: Protocol, es: seq<Event>, size: nat)
    requires Inv(s, size) && Legal(s, es)
    ensures Inv(Exec(s, es), size)
    decreases es
  {
    if es == [] {
    } else {
      NextInv(s, es[0], size);
      ExecInv(Next(s, es[0]), es[1..], size);
    }
  }

  /**
   The channel is a bounded FIFO queue in every run: what was sent is what was received followed by
   the buffer, the buffer never exceeds its size, the semaphores count it exactly, and no step the
   callers can make next pops an empty list.
   */
  lemma BoundedFifo(size: nat, es: seq<Event>, e: Event)
    requires Legal(Start(size), es)
    ensures var s := Exec(Start(size), es);
            && s.sent == s.received + s.buffer && |s.buffer| <= size
            && s.fill.value == |s.buffer| && s.idle.value == size - |s.buffer|
            && (Enabled(s, e) ==> Safe(s, e))
  {
    ExecInv(Start(size), es, size);
    if Enabled(Exec(Start(size), es), e) { NextInv(Exec(Start(size), es), e, size); }
  }

  /** No wake-up is lost: a pass leaves a semaphore with value 0 or with nobody blocked on its side. */
  lemma PassEndsExact(size: nat, es: seq<Event>)
    requires Legal(Start(size), es) && Enabled(Exec(Start(size), es), PassEnd)
    ensures var s := Exec(Start(size), es);
            var side := s.pass.value;
            Sem(s, side).value == 0 || forall c :: c in s.inCall ==> SideOf(s.inCall[c]) != side
  {
    ExecInv(Start(size), es, size);
    var s := Exec(Start(size), es);
    if Sem(s, s.pass.value).value > 0 { assert Sem(s, s.pass.value).waiters <= {INVALID}; }
  }

  /** With a positive size a blocked sender and a blocked receiver are never both stuck: a pass wakes one of them. */
  lemma NeverBothStuck(size: nat, es: seq<Event>, sender: int, receiver: int)
    requires size > 0 && Legal(Start(size), es)
    requires var s := Exec(Start(size), es);
             AtMaster(s) && s.pass == None && sender in s.inCall && s.inCall[sender].Send?
             && receiver in s.inCall && s.inCall[receiver].Receive?
    ensures var s := Exec(Start(size), es);
            || (Enabled(s, PassStart(IdleSem)) && sender in Next(s, PassStart(IdleSem)).todo
                && Enabled(Next(s, PassStart(IdleSem)), PassWake(sender)))
            || (Enabled(s, PassStart(FillSem)) && receiver in Next(s, PassStart(FillSem)).todo
                && Enabled(Next(s, PassStart(FillSem)), PassWake(receiver)))
  {
    ExecInv(Start(size), es, size);
  }

  lemma FirstSend(size: nat) returns (es: seq<Event>)
    requires size > 0
    ensures Legal(Start(size), es) && Exec(Start(size), es).sent == [7]
  {
    es := [Wake(0), Call(Send(7))];
    var s := Next(Start(size), Wake(0));
    var t := Next(s, Call(Send(7)));
    assert Legal(t, []) && Exec(t, []) == t;
    assert es[1..] == [Call(Send(7))] && [Call(Send(7))][1..] == [];
    assert Legal(s, [Call(Send(7))]) && Exec(s, [Call(Send(7))]) == t;
  }

  lemma {:induction false} NothingSent(s: Protocol, es: seq<Event>)
    requires Inv(s, 0) && Legal(s, es) && s.sent == []
    ensures Exec(s, es).sent == []
    decreases es
  {
    if es == [] {
    } else {
      NextInv(s, es[0], 0);
      NothingSent(Next(s, es[0]), es[1..]);
    }
  }

  /** A Send can complete in some run exactly when the buffer size is positive; 0 is the constructor's default. */
  lemma SendCanComplete(size: nat)
    ensures (exists es :: Legal(Start(size), es) && Exec(Start(size), es).sent != []) <==> size > 0
  {
    if size > 0 {
      var es := FirstSend(size);
    } else {
      forall es | Legal(Start(0), es) ensures Exec(Start(0), es).sent == [] { NothingSent(Start(0), es); }
    }
  }
}

/** The Channel class with its fields updated in place. */
module ChannelObject {
  import opened Base
  import opened CoSemaphore
  import opened CoSemaphoreObject
  import opened ChannelProtocol

  class Channel {
    const idle: SemaphoreObject
    const fill: SemaphoreObject
    var buffer: seq<Value>
    var slaveCid: int
    var inCall: map<int, Op>
    // Histories and the state of the scheduler's pass, read by no decision of the channel.
    var pass: Option<Side>
    var todo: set<int>
    var sent: seq<Value>
    var received: seq<Value>

    function P(): Protocol
      reads this, idle, fill
    {
      Protocol(idle.S(), fill.S(), buffer, inCall, slaveCid, pass, todo, sent, received)
    }

    constructor (bufferSize: nat := 0)
      ensures P() == Start(bufferSize) && idle != fill && fresh(idle) && fresh(fill)
    {
      idle := new SemaphoreObject(bufferSize);
      fill := new SemaphoreObject(0);
      buffer, slaveCid, inCall, pass, todo, sent, received := [], INVALID, map[], None, {}, [], [];
    }

    /** Send up to the yield inside its semaphore, or to its return. */
    method Send(data: Value, ghost size: nat)
      requires idle != fill && Inv(P(), size) && slaveCid >= 0
      requires slaveCid in inCall ==> inCall[slaveCid] == Op.Send(data)
      modifies this, idle, fill
      ensures P() == Turn(old(P()), Op.Send(data)) && Inv(P(), size)
    {
      TurnInv(P(), Op.Send(data), size);
      var passed := idle.Turn(slaveCid);
      if !passed {
        inCall, slaveCid := inCall[slaveCid := Op.Send(data)], INVALID;
        return;
      }
      inCall := inCall - {slaveCid};
      buffer, sent := buffer + [data], sent + [data];
      fill.CoSemaphorePost();
    }

    /** Receive up to the yield inside its semaphore, or to its return with the oldest value. */
    method Receive(ghost size: nat) returns (data: Option<Value>)
      requires idle != fill && Inv(P(), size) && slaveCid >= 0
      requires slaveCid in inCall ==> inCall[slaveCid] == Op.Receive
      modifies this, idle, fill
      ensures P() == Turn(old(P()), Op.Receive) && Inv(P(), size)
      ensures if Passes(old(fill.S())) then old(buffer) != [] && data == Some(old(buffer)[0]) && received == old(received) + [data.value]
              else data == None && received == old(received)
    {
      TurnInv(P(), Op.Receive, size);
      var passed := fill.Turn(slaveCid);
      if !passed {
        inCall, slaveCid := inCall[slaveCid := Op.Receive], INVALID;
        return None;
      }
      inCall := inCall - {slaveCid};
      data := Some(buffer[0]);
      received, buffer := received + [buffer[0]], buffer[1..];
      idle.CoSemaphorePost();
    }
  }
}
