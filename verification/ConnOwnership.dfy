/**
 Who may touch a connection of the thread-pool server: io threads with their own epoll, workers, and
 the queue between them, interleaved in any way. epoll delivers only what is armed, and disarms a
 one-shot read when it delivers it. Connection ids are never reused here.
 */
module ConnOwnership {
  import opened Base

  datatype Kind = Readable | Writable  // EPOLLIN, EPOLLOUT
  datatype Ready = Ready(conn: int, kind: Kind)

  /** Where a live connection is; history that the invariant ties to the real state. */
  datatype Place = ArmedRead | ArmedWrite | WithIo(io: int) | Queued | WithWorker(w: int)

  /**
   armedRead and armedWrite are the epoll registrations, home the epoll instance of each connection,
   events what each io thread has still to handle of its last epoll_wait, busy what each worker holds.
   */
  datatype Server = Server(
    live: set<int>, deleted: set<int>, home: map<int, int>, armedRead: set<int>, armedWrite: set<int>,
    events: map<int, seq<Ready>>, queue: seq<int>, busy: map<int, int>, place: map<int, Place>)

  function Start(ios: set<int>): Server {
    Server({}, {}, map[], {}, {}, map io | io in ios :: [], [], map[], map[])
  }

  datatype Event =
    | Accept(io: int, conn: int)
    | EpollWait(io: int, batch: seq<Ready>)
    | ReadFails(io: int) | ReadPartial(io: int) | ReadWhole(io: int)     // the first event, EPOLLIN
    | WriteFails(io: int) | WritePartial(io: int) | WriteWhole(io: int)  // the first event, EPOLLOUT
    | Pop(w: int)
    | SendFails(w: int) | SendWhole(w: int)  // the worker answers directly
    | HandBack(w: int)                       // the worker arms the write for the io thread

  predicate HasEvent(s: Server, io: int, kind: Kind) {
    io in s.events && s.events[io] != [] && s.events[io][0].kind == kind
  }

  predicate Delivers(s: Server, io: int, batch: seq<Ready>) {
    && (forall i, j :: 0 <= i < j < |batch| ==> batch[i].conn != batch[j].conn)
    && forall r :: r in batch ==>
         && r.conn in s.home && s.home[r.conn] == io
         && (if r.kind == Readable then r.conn in s.armedRead else r.conn in s.armedWrite)
  }

  predicate Enabled(s: Server, e: Event) {
    match e
    case Accept(io, c) => io in s.events && c !in s.live && c !in s.deleted
    case EpollWait(io, batch) => io in s.events && s.events[io] == [] && Delivers(s, io, batch)
    case ReadFails(io) => HasEvent(s, io, Readable)
    case ReadPartial(io) => HasEvent(s, io, Readable)
    case ReadWhole(io) => HasEvent(s, io, Readable)
    case WriteFails(io) => HasEvent(s, io, Writable)
    case WritePartial(io) => HasEvent(s, io, Writable)
    case WriteWhole(io) => HasEvent(s, io, Writable)
    case Pop(w) => w !in s.busy && s.queue != []
    case SendFails(w) => w in s.busy
    case SendWhole(w) => w in s.busy
    case HandBack(w) => w in s.busy
  }

  /** The connection a step reads, writes, deletes or passes on. */
  function Touched(s: Server, e: Event): Option<int>
    requires Enabled(s, e)
  {
    match e
    case Accept(_, _) => None
    case EpollWait(_, _) => None
    case Pop(_) => Some(s.queue[0])
    case SendFails(w) => Some(s.busy[w])
    case SendWhole(w) => Some(s.busy[w])
    case HandBack(w) => Some(s.busy[w])
    case _ => Some(s.events[e.io][0].conn)
  }

  function Rest(s: Server, io: int): map<int, seq<Ready>>
    requires io in s.events && s.events[io] != []
  {
    s.events[io := s.events[io][1..]]
  }

  /** ClearEvent and delete. */
  function Delete(s: Server, c: int): Server {
    s.(live := s.live - {c}, deleted := s.deleted + {c}, armedRead := s.armedRead - {c}, armedWrite := s.armedWrite - {c},
       place := s.place - {c})
  }

  /** ReStartReadEvent: EPOLL_CTL_MOD to a one-shot read. */
  function ArmRead(s: Server, c: int): Server {
    s.(armedRead := s.armedRead + {c}, armedWrite := s.armedWrite - {c}, place := s.place[c := ArmedRead])
  }

  function Conns(batch: seq<Ready>, kind: Kind): set<int> {
    set r | r in batch && r.kind == kind :: r.conn
  }

  function AllConns(batch: seq<Ready>): set<int> {
    set r | r in batch :: r.conn
  }

  function Next(s: Server, e: Event): Server
    requires Enabled(s, e)
  {
    match e
    case Accept(io, c) =>
      s.(live := s.live + {c}, home := s.home[c := io], armedRead := s.armedRead + {c}, place := s.place[c := ArmedRead])
    case EpollWait(io, batch) =>
      s.(events := s.events[io := batch], armedRead := s.armedRead - Conns(batch, Readable),
         place := map c | c in s.place :: if c in AllConns(batch) then WithIo(io) else s.place[c])
    case ReadFails(io) => Delete(s, s.events[io][0].conn).(events := Rest(s, io))
    case ReadPartial(io) => ArmRead(s, s.events[io][0].conn).(events := Rest(s, io))
    case ReadWhole(io) =>
      var c := s.events[io][0].conn;
      s.(events := Rest(s, io), queue := s.queue + [c], place := s.place[c := Queued])
    case WriteFails(io) => Delete(s, s.events[io][0].conn).(events := Rest(s, io))
    case WritePartial(io) => s.(events := Rest(s, io), place := s.place[s.events[io][0].conn := ArmedWrite])
    case WriteWhole(io) => ArmRead(s, s.events[io][0].conn).(events := Rest(s, io))
    case Pop(w) => s.(queue := s.queue[1..], busy := s.busy[w := s.queue[0]], place := s.place[s.queue[0] := WithWorker(w)])
    case SendFails(w) => Delete(s, s.busy[w]).(busy := s.busy - {w})
    case SendWhole(w) => ArmRead(s, s.busy[w]).(busy := s.busy - {w})
    case HandBack(w) =>
      var c := s.busy[w];
      s.(armedWrite := s.armedWrite + {c}, place := s.place[c := ArmedWrite], busy := s.busy - {w})
  }

  // ---------- The invariant ----------

  predicate InEvents(s: Server, io: int, c: int) {
    io in s.events && exists r :: r in s.events[io] && r.conn == c
  }

  ghost predicate OncePerConn(batch: seq<Ready>) {
    forall i, j :: 0 <= i < j < |batch| ==> batch[i].conn != batch[j].conn
  }

  ghost predicate EventsInv(s: Server) {
    forall io :: io in s.events ==>
      && OncePerConn(s.events[io])
      && forall r :: r in s.events[io] ==>
           && r.conn in s.place && s.place[r.conn] == WithIo(io) && r.conn in s.home && s.home[r.conn] == io
           && (r.kind == Writable <==> r.conn in s.armedWrite)
  }

  ghost predicate ArmedInv(s: Server) {
    && s.place.Keys == s.live && s.live <= s.home.Keys && s.live !! s.deleted
    && (forall c :: c in s.armedRead <==> c in s.place && s.place[c] == ArmedRead)
    && (forall c :: c in s.armedWrite ==> c in s.place && (s.place[c] == ArmedWrite || s.place[c].WithIo?))
    && (forall c :: c in s.place && s.place[c] == ArmedWrite ==> c in s.armedWrite)
  }

  ghost predicate HeldInv(s: Server) {
    && NoDup(s.queue)
    && (forall c :: c in s.queue <==> c in s.place && s.place[c] == Queued)
    && (forall w :: w in s.busy ==> s.busy[w] in s.place && s.place[s.busy[w]] == WithWorker(w))
    && (forall c :: c in s.place && s.place[c].WithWorker? ==> s.place[c].w in s.busy && s.busy[s.place[c].w] == c)
    && (forall c :: c in s.place && s.place[c].WithIo? ==> InEvents(s, s.place[c].io, c))
  }

  /** The place of a connection is where the real state has it. */
  ghost predicate PlaceInv(s: Server) { ArmedInv(s) && HeldInv(s) }

  ghost predicate Inv(s: Server) {
    EventsInv(s) && PlaceInv(s)
  }

  /** t is s with the first event of io done, its connection c moved on to wherever t.place says. */
  ghost predicate LeavesIo(s: Server, t: Server, io: int, c: int) {
    && io in s.events && s.events[io] != [] && s.events[io][0].conn == c && t.events == Rest(s, io)
    && t.home == s.home && t.busy == s.busy
    && (forall x :: x != c ==> (x in t.place <==> x in s.place) && (x in s.place ==> t.place[x] == s.place[x]))
    && (forall x :: x != c ==> (x in t.armedRead <==> x in s.armedRead) && (x in t.armedWrite <==> x in s.armedWrite))
    && (c in t.place ==> !t.place[c].WithIo? && !t.place[c].WithWorker?)
  }

  lemma LeavesIoEvents(s: Server, t: Server, io: int, c: int)
    requires Inv(s) && LeavesIo(s, t, io, c)
    ensures EventsInv(t)
  {}

  /** Everybody else's events stay where they are. */
  lemma LeavesIoPlaces(s: Server, t: Server, io: int, c: int)
    requires Inv(s) && LeavesIo(s, t, io, c)
    ensures forall x :: x in t.place && t.place[x].WithIo? ==> InEvents(t, t.place[x].io, x)
    ensures c in s.place && s.place[c] == WithIo(io) && c !in s.queue && c !in s.armedRead
    ensures forall w :: w in s.busy ==> s.busy[w] != c
  {}

  predicate IsIoStep(e: Event) {
    e.ReadFails? || e.ReadPartial? || e.ReadWhole? || e.WriteFails? || e.WritePartial? || e.WriteWhole?
  }

  lemma IoArmed(s: Server, e: Event, t: Server, c: int)
    requires Inv(s) && IsIoStep(e) && Enabled(s, e) && t == Next(s, e)
    requires c == s.events[e.io][0].conn && c in s.place && s.place[c] == WithIo(e.io)
    requires s.events[e.io][0].kind == Writable <==> c in s.armedWrite
    ensures ArmedInv(t)
  {}

  lemma IoHeld(s: Server, e: Event, t: Server, c: int)
    requires Inv(s) && IsIoStep(e) && Enabled(s, e) && t == Next(s, e)
    requires c == s.events[e.io][0].conn && c in s.place && s.place[c] == WithIo(e.io) && c !in s.queue
    requires forall x :: x in t.place && t.place[x].WithIo? ==> InEvents(t, t.place[x].io, x)
    ensures HeldInv(t)
  {
    if e.ReadWhole? { assert forall x :: x in t.queue <==> x in s.queue || x == c; }
  }

  lemma IoStepInv(s: Server, e: Event)
    requires Inv(s) && IsIoStep(e) && Enabled(s, e)
    ensures Inv(Next(s, e)) && s.events[e.io][0].conn in s.live
  {
    var t, c := Next(s, e), s.events[e.io][0].conn;
    assert s.events[e.io][0] in s.events[e.io];
    LeavesIoEvents(s, t, e.io, c);
    LeavesIoPlaces(s, t, e.io, c);
    IoArmed(s, e, t, c);
    IoHeld(s, e, t, c);
  }

  lemma SameEvents(s: Server, t: Server, c: int)
    requires PlaceInv(s) && t.events == s.events
    requires forall x :: x in t.place && t.place[x].WithIo? ==> x in s.place && s.place[x] == t.place[x]
    ensures forall x :: x in t.place && t.place[x].WithIo? ==> InEvents(t, t.place[x].io, x)
  {}

  lemma WorkerPlace(s: Server, e: Event, t: Server, c: int)
    requires Inv(s) && Enabled(s, e) && (e.SendFails? || e.SendWhole? || e.HandBack?) && t == Next(s, e) && c == s.busy[e.w]
    ensures PlaceInv(t)
  {
    SameEvents(s, t, c);
  }

  lemma WorkerStepInv(s: Server, e: Event)
    requires Inv(s) && Enabled(s, e) && (e.SendFails? || e.SendWhole? || e.HandBack?)
    ensures Inv(Next(s, e)) && s.busy[e.w] in s.live
  {
    var t, c := Next(s, e), s.busy[e.w];
    assert s.place[c] == WithWorker(e.w);
    assert forall io, r :: io in s.events && r in s.events[io] ==> r.conn != c;
    assert EventsInv(t);
    WorkerPlace(s, e, t, c);
  }

  lemma PopInv(s: Server, w: int)
    requires Inv(s) && Enabled(s, Pop(w))
    ensures Inv(Next(s, Pop(w))) && s.queue[0] in s.live
  {
    var t, c := Next(s, Pop(w)), s.queue[0];
    assert c in s.queue;
    assert forall x :: x in s.queue <==> x == c || x in s.queue[1..];
    assert forall io, r :: io in s.events && r in s.events[io] ==> r.conn != c;
    assert EventsInv(t);
    SameEvents(s, t, c);
  }

  lemma AcceptInv(s: Server, io: int, c: int)
    requires Inv(s) && Enabled(s, Accept(io, c))
    ensures Inv(Next(s, Accept(io, c)))
  {
    var t := Next(s, Accept(io, c));
    assert forall i, r :: i in s.events && r in s.events[i] ==> r.conn != c;
    assert EventsInv(t);
    SameEvents(s, t, c);
  }

  /** Everything epoll delivers was armed and in nobody's hands. */
  lemma DeliveredIdle(s: Server, io: int, batch: seq<Ready>)
    requires Inv(s) && Enabled(s, EpollWait(io, batch))
    ensures forall r :: r in batch ==> r.conn in s.place && s.place[r.conn] == if r.kind == Readable then ArmedRead else ArmedWrite
    ensures forall i, r :: i in s.events && r in s.events[i] ==> r.conn !in AllConns(batch)
    ensures forall c :: c in s.place ==> s.place[c] != WithIo(io)
  {}

  lemma WaitEvents(s: Server, io: int, batch: seq<Ready>)
    requires Inv(s) && Enabled(s, EpollWait(io, batch))
    ensures EventsInv(Next(s, EpollWait(io, batch)))
  {}

  lemma WaitInEvents(s: Server, io: int, batch: seq<Ready>)
    requires Inv(s) && Enabled(s, EpollWait(io, batch))
    ensures var t := Next(s, EpollWait(io, batch));
            forall c :: c in t.place && t.place[c].WithIo? ==> InEvents(t, t.place[c].io, c)
  {}

  lemma WaitArmed(s: Server, io: int, batch: seq<Ready>)
    requires Inv(s) && Enabled(s, EpollWait(io, batch))
    ensures ArmedInv(Next(s, EpollWait(io, batch)))
  {}

  lemma WaitHeld(s: Server, io: int, batch: seq<Ready>)
    requires Inv(s) && Enabled(s, EpollWait(io, batch))
    ensures HeldInv(Next(s, EpollWait(io, batch)))
  {
    DeliveredIdle(s, io, batch);
    WaitInEvents(s, io, batch);
    assert forall c :: c in AllConns(batch) ==> c in s.place && (s.place[c] == ArmedRead || s.place[c] == ArmedWrite);
  }

  lemma NextInv(s: Server, e: Event)
    requires Inv(s) && Enabled(s, e)
    ensures Inv(Next(s, e)) && (Touched(s, e).Some? ==> Touched(s, e).value in s.live)
  {
    match e
    case Accept(io, c) => AcceptInv(s, io, c);
    case EpollWait(io, batch) => WaitEvents(s, io, batch); WaitArmed(s, io, batch); WaitHeld(s, io, batch);
    case Pop(w) => PopInv(s, w);
    case SendFails(_) => WorkerStepInv(s, e);
    case SendWhole(_) => WorkerStepInv(s, e);
    case HandBack(_) => WorkerStepInv(s, e);
    case _ => IoStepInv(s, e);
  }

  // ---------- Where each step leaves its connection ----------

  /** Where the connection of step e goes; None means it is deleted. */
  function Destination(e: Event): Option<Place> {
    match e
    case Accept(_, _) => Some(ArmedRead)
    case EpollWait(io, _) => Some(WithIo(io))
    case ReadPartial(_) => Some(ArmedRead)
    case ReadWhole(_) => Some(Queued)
    case WritePartial(_) => Some(ArmedWrite)
    case WriteWhole(_) => Some(ArmedRead)
    case Pop(w) => Some(WithWorker(w))
    case SendWhole(_) => Some(ArmedRead)
    case HandBack(_) => Some(ArmedWrite)
    case _ => None
  }

  /** Whether step e moves connection c. */
  predicate Moves(s: Server, e: Event, c: int)
    requires Enabled(s, e)
  {
    match e
    case Accept(_, x) => x == c
    case EpollWait(_, batch) => c in AllConns(batch)
    case _ => Touched(s, e) == Some(c)
  }

  /**
   A step brings its connection to the place the outcome calls for and no other connection anywhere: a half read
   request waits for the rest, a whole one is queued last, a whole answer makes the connection readable again, what
   is left of an answer waits for writability, and an error deletes it.
   */
  lemma StepMoves(s: Server, e: Event, c: int)
    requires Inv(s) && Enabled(s, e)
    ensures var t := Next(s, e);
            if Moves(s, e, c) then
              if Destination(e) == None then c !in t.live && c in t.deleted && c !in t.place
              else c in t.live && c in t.place && t.place[c] == Destination(e).value
            else (c in t.live <==> c in s.live) && (c in t.place <==> c in s.place) && (c in s.place ==> t.place[c] == s.place[c])
  {
    NextInv(s, e);
    if e.EpollWait? { DeliveredIdle(s, e.io, e.batch); }
  }

  /** A connection stays with the epoll instance of the io thread that accepted it. */
  lemma HomeStays(s: Server, e: Event, c: int)
    requires Enabled(s, e)
    ensures if e.Accept? && e.conn == c then c in Next(s, e).home && Next(s, e).home[c] == e.io
            else (c in Next(s, e).home <==> c in s.home) && (c in s.home ==> Next(s, e).home[c] == s.home[c])
  {}

  /** The queue hands connections to the workers in the order the io threads put them in. */
  lemma QueueOrder(s: Server, e: Event)
    requires Enabled(s, e)
    ensures Next(s, e).queue ==
            if e.ReadWhole? then s.queue + [s.events[e.io][0].conn] else if e.Pop? then s.queue[1..] else s.queue
    ensures e.Pop? ==> e.w in Next(s, e).busy && Next(s, e).busy[e.w] == s.queue[0]
  {}

  // ---------- Runs ----------

  ghost predicate Legal(s: Server, es: seq<Event>)
    decreases es
  {
    es == [] || (Enabled(s, es[0]) && Legal(Next(s, es[0]), es[1..]))
  }

  ghost function Exec(s: Server, es: seq<Event>): Server
    requires Legal(s, es)
    decreases es
  {
    if es == [] then s else Exec(Next(s, es[0]), es[1..])
  }

  lemma {:induction false} ExecInv(s: Server, es: seq<Event>)
    requires Inv(s) && Legal(s, es)
    ensures Inv(Exec(s, es))
    decreases es
  {
    if es == [] {
    } else {
      NextInv(s, es[0]);
      ExecInv(Next(s, es[0]), es[1..]);
    }
  }

  lemma StartInv(ios: set<int>)
    ensures Inv(Start(ios))
  {}

  function One(b: bool): nat { if b then 1 else 0 }

  ghost predicate SomeIo(s: Server, c: int) { exists io :: InEvents(s, io, c) }
  ghost predicate SomeWorker(s: Server, c: int) { exists w :: w in s.busy && s.busy[w] == c }

  /** Nobody but the thread that takes step e can get at c: it is not armed for reading, not queued for others, and in no other hands. */
  ghost predicate SoleToucher(s: Server, e: Event, c: int) {
    && c !in s.armedRead
    && (forall io :: InEvents(s, io, c) ==> IsIoStep(e) && io == e.io)
    && (forall w :: w in s.busy && s.busy[w] == c ==> (e.SendFails? || e.SendWhole? || e.HandBack?) && w == e.w)
    && (c in s.queue ==> e.Pop?)
    && (c in s.armedWrite ==> IsIoStep(e))
  }

  lemma OwnerFromPlace(s: Server, c: int)
    requires Inv(s) && c in s.live
    ensures SomeIo(s, c) <==> s.place[c].WithIo?
    ensures SomeWorker(s, c) <==> s.place[c].WithWorker?
    ensures c in s.armedWrite && !SomeIo(s, c) <==> s.place[c] == ArmedWrite
    ensures forall io :: InEvents(s, io, c) ==> s.place[c] == WithIo(io)
    ensures forall w :: w in s.busy && s.busy[w] == c ==> s.place[c] == WithWorker(w)
  {}

  /** No step of any run touches a connection that was deleted, or one that another thread could touch. */
  lemma TouchesLive(ios: set<int>, es: seq<Event>, e: Event)
    requires Legal(Start(ios), es) && Enabled(Exec(Start(ios), es), e)
    ensures var s := Exec(Start(ios), es); var c := Touched(s, e);
            c.Some? ==> c.value in s.live && c.value !in s.deleted && SoleToucher(s, e, c.value)
  {
    StartInv(ios);
    ExecInv(Start(ios), es);
    var s := Exec(Start(ios), es);
    NextInv(s, e);
    if Touched(s, e).Some? { OwnerFromPlace(s, Touched(s, e).value); }
  }

  /**
   Single ownership. In every run each live connection is in exactly one place: armed for reading,
   armed for writing and not delivered, with an io thread, in the queue once, or with a worker; and no
   two io threads and no two workers have it.
   */
  lemma SingleOwner(ios: set<int>, es: seq<Event>, c: int)
    requires Legal(Start(ios), es) && c in Exec(Start(ios), es).live
    ensures var s := Exec(Start(ios), es);
            && One(c in s.armedRead) + One(c in s.armedWrite && !SomeIo(s, c)) + One(SomeIo(s, c))
               + One(c in s.queue) + One(SomeWorker(s, c)) == 1
            && (forall io, io' :: InEvents(s, io, c) && InEvents(s, io', c) ==> io == io')
            && (forall w, w' :: w in s.busy && w' in s.busy && s.busy[w] == c == s.busy[w'] ==> w == w')
            && NoDup(s.queue)
  {
    StartInv(ios);
    ExecInv(Start(ios), es);
    OwnerFromPlace(Exec(Start(ios), es), c);
  }
}
