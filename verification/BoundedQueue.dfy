/**
 The shared queue of the thread-pool server: any number of threads, one atomic step at each semaphore
 and mutex operation, any interleaving; sem_wait never fails.
 */
module BoundedQueue {
  import opened Base

  type Item = int

  /** Where a thread is: P.. inside pushToQueue, C.. inside getQueueData, named after what it did last. */
  datatype Pc =
    | Outside
    | PStart(item: Item) | PTookIdle(item: Item) | PLocked(item: Item) | PPushed | PUnlocked
    | CStart | CTookFill | CLocked | CPopped(item: Item) | CUnlocked(item: Item)

  /** One push or pop of the list, and the thread that did it. */
  datatype Entry = Entry(t: int, item: Item)

  /** pushed and popped are the histories of the list itself. */
  datatype Queue = Queue(
    idle: nat, fill: nat, items: seq<Item>, owner: Option<int>, pc: map<int, Pc>, pushed: seq<Entry>, popped: seq<Entry>)

  datatype Event = CallPush(t: int, item: Item) | CallPop(t: int) | Step(t: int)

  function Start(size: nat, threads: set<int>): Queue {
    Queue(size, 0, [], None, map t | t in threads :: Outside, [], [])
  }

  predicate Enabled(s: Queue, e: Event) {
    e.t in s.pc &&
    match e
    case CallPush(t, _) => s.pc[t] == Outside
    case CallPop(t) => s.pc[t] == Outside
    case Step(t) =>
      match s.pc[t]
      case Outside => false
      case PStart(_) => s.idle > 0         // sem_wait(&Idle) gets through
      case CStart => s.fill > 0            // sem_wait(&Fill) gets through
      case PTookIdle(_) => s.owner == None // the lock_guard gets the mutex
      case CTookFill => s.owner == None
      case _ => true
  }

  function Next(s: Queue, e: Event): Queue
    requires Enabled(s, e)
  {
    match e
    case CallPush(t, x) => s.(pc := s.pc[t := PStart(x)])
    case CallPop(t) => s.(pc := s.pc[t := CStart])
    case Step(t) =>
      match s.pc[t]
      case Outside => s
      case PStart(x) => s.(idle := s.idle - 1, pc := s.pc[t := PTookIdle(x)])
      case PTookIdle(x) => s.(owner := Some(t), pc := s.pc[t := PLocked(x)])
      case PLocked(x) => s.(items := s.items + [x], pushed := s.pushed + [Entry(t, x)], pc := s.pc[t := PPushed])
      case PPushed => s.(owner := None, pc := s.pc[t := PUnlocked])
      case PUnlocked => s.(fill := s.fill + 1, pc := s.pc[t := Outside])
      case CStart => s.(fill := s.fill - 1, pc := s.pc[t := CTookFill])
      case CTookFill => s.(owner := Some(t), pc := s.pc[t := CLocked])
      case CLocked =>
        if s.items == [] then s
        else s.(items := s.items[1..], popped := s.popped + [Entry(t, s.items[0])], pc := s.pc[t := CPopped(s.items[0])])
      case CPopped(x) => s.(owner := None, pc := s.pc[t := CUnlocked(x)])
      case CUnlocked(x) => s.(idle := s.idle + 1, pc := s.pc[t := Outside])
  }

  // ---------- Reading the histories ----------

  function Items(h: seq<Entry>): seq<Item> {
    seq(|h|, i requires 0 <= i < |h| => h[i].item)
  }

  /** What thread t pushed, or popped. */
  function ItemsOf(h: seq<Entry>, t: int): seq<Item> {
    if h == [] then []
    else
      var e := h[|h| - 1];
      ItemsOf(h[..|h| - 1], t) + if e.t == t then [e.item] else []
  }

  lemma ItemsOfMore(h: seq<Entry>, e: Entry, t: int)
    ensures ItemsOf(h + [e], t) == ItemsOf(h, t) + if e.t == t then [e.item] else []
  {
    assert (h + [e])[..|h|] == h;
  }

  // ---------- Counting threads between their two semaphore operations ----------

  datatype Zone = Free | BeforePush | AfterPush | BeforePop | AfterPop

  function ZoneOf(pc: Pc): Zone {
    match pc
    case PTookIdle(_) => BeforePush
    case PLocked(_) => BeforePush
    case PPushed => AfterPush
    case PUnlocked => AfterPush
    case CTookFill => BeforePop
    case CLocked => BeforePop
    case CPopped(_) => AfterPop
    case CUnlocked(_) => AfterPop
    case _ => Free
  }

  function In(pc: map<int, Pc>, z: Zone): set<int> {
    set t | t in pc && ZoneOf(pc[t]) == z
  }

  function Count(s: Queue, z: Zone): nat { |In(s.pc, z)| }

  lemma Move(pc: map<int, Pc>, t: int, to: Pc, z: Zone)
    requires t in pc
    ensures |In(pc[t := to], z)| == |In(pc, z)| - (if ZoneOf(pc[t]) == z then 1 else 0) + (if ZoneOf(to) == z then 1 else 0)
  {
    var a, b := In(pc, z), In(pc[t := to], z);
    if ZoneOf(to) == z { assert b == a + {t}; } else { assert b == a - {t}; }
  }

  predicate HoldsMutex(pc: Pc) { pc.PLocked? || pc.PPushed? || pc.CLocked? || pc.CPopped? }

  /** The semaphores, the queue and the threads in between account for every place of the buffer. */
  predicate CountInv(s: Queue, size: nat) {
    && s.idle + Count(s, BeforePush) + |s.items| + Count(s, AfterPop) == size
    && |s.items| == s.fill + Count(s, AfterPush) + Count(s, BeforePop)
  }

  ghost predicate OwnerInv(s: Queue) {
    forall t :: t in s.pc && HoldsMutex(s.pc[t]) <==> s.owner == Some(t)
  }

  ghost predicate Inv(s: Queue, size: nat) {
    CountInv(s, size) && OwnerInv(s) && Items(s.pushed) == Items(s.popped) + s.items
  }

  lemma NobodyBetween(pc: map<int, Pc>)
    requires forall t :: t in pc ==> ZoneOf(pc[t]) == Free
    ensures forall z :: z != Free ==> |In(pc, z)| == 0
  {
    forall z | z != Free ensures |In(pc, z)| == 0 {
      Inhabited(In(pc, z));
    }
  }

  lemma StartInv(size: nat, threads: set<int>)
    ensures Inv(Start(size, threads), size)
  {
    var s := Start(size, threads);
    NobodyBetween(s.pc);
  }

  /** A thread about to take the front always finds an item. */
  lemma FrontExists(s: Queue, size: nat, t: int)
    requires Inv(s, size) && t in s.pc && s.pc[t].CLocked?
    ensures s.items != []
  {
    assert t in In(s.pc, BeforePop);
  }

  lemma MoveAll(s: Queue, t: int, to: Pc)
    requires t in s.pc
    ensures forall z :: |In(s.pc[t := to], z)| == Count(s, z) - (if ZoneOf(s.pc[t]) == z then 1 else 0) + (if ZoneOf(to) == z then 1 else 0)
  {
    forall z ensures |In(s.pc[t := to], z)| == Count(s, z) - (if ZoneOf(s.pc[t]) == z then 1 else 0) + (if ZoneOf(to) == z then 1 else 0) {
      Move(s.pc, t, to, z);
    }
  }

  lemma NextPc(s: Queue, e: Event)
    requires Enabled(s, e)
    ensures e.t in Next(s, e).pc
    ensures (e.Step? && s.pc[e.t].CLocked? && s.items == []) || Next(s, e).pc == s.pc[e.t := Next(s, e).pc[e.t]]
  {}

  lemma NextCount(s: Queue, e: Event, size: nat)
    requires CountInv(s, size) && Enabled(s, e) && (e.Step? && s.pc[e.t].CLocked? ==> s.items != [])
    ensures CountInv(Next(s, e), size)
  {
    NextPc(s, e);
    MoveAll(s, e.t, Next(s, e).pc[e.t]);
  }

  lemma NextOwner(s: Queue, e: Event)
    requires OwnerInv(s) && Enabled(s, e)
    ensures OwnerInv(Next(s, e))
  {
    NextPc(s, e);
  }

  lemma NextItems(s: Queue, e: Event)
    requires Items(s.pushed) == Items(s.popped) + s.items && Enabled(s, e)
    ensures Items(Next(s, e).pushed) == Items(Next(s, e).popped) + Next(s, e).items
  {
    if s.items != [] { assert Items(s.popped) + s.items == (Items(s.popped) + [s.items[0]]) + s.items[1..]; }
    assert forall h: seq<Entry>, x: Entry :: Items(h + [x]) == Items(h) + [x.item];
  }

  lemma NextInv(s: Queue, e: Event, size: nat)
    requires Inv(s, size) && Enabled(s, e)
    ensures Inv(Next(s, e), size)
  {
    if e.Step? && s.pc[e.t].CLocked? { FrontExists(s, size, e.t); }
    NextCount(s, e, size);
    NextOwner(s, e);
    NextItems(s, e);
  }

  // ---------- Runs ----------

  ghost predicate Legal(s: Queue, es: seq<Event>)
    decreases es
  {
    es == [] || (Enabled(s, es[0]) && Legal(Next(s, es[0]), es[1..]))
  }

  ghost function Exec(s: Queue, es: seq<Event>): Queue
    requires Legal(s, es)
    decreases es
  {
    if es == [] then s else Exec(Next(s, es[0]), es[1..])
  }

  lemma {:induction false} ExecInv(s: Queue, es: seq<Event>, size: nat)
    requires Inv(s, size) && Legal(s, es)
    ensures Inv(Exec(s, es), size)
    decreases es
  {
    if es == [] {
    } else {
      NextInv(s, es[0], size);
      ExecInv(Next(s, es[0]), es[1..], size);
    }
  }

  /**
   In every run: the two semaphores and the threads between their two semaphore operations add up to
   the size, the queue is never over it, items leave in the order they came, each once, and front()
   is never taken of an empty queue.
   */
  lemma Conservation(size: nat, threads: set<int>, es: seq<Event>)
    requires Legal(Start(size, threads), es)
    ensures var s := Exec(Start(size, threads), es);
            && s.idle + s.fill + Count(s, BeforePush) + Count(s, AfterPush) + Count(s, BeforePop) + Count(s, AfterPop) == size
            && |s.items| <= size && Items(s.pushed) == Items(s.popped) + s.items
            && forall t :: t in s.pc && s.pc[t].CLocked? ==> s.items != []
  {
    StartInv(size, threads);
    ExecInv(Start(size, threads), es, size);
    var s := Exec(Start(size, threads), es);
    forall t | t in s.pc && s.pc[t].CLocked? ensures s.items != [] { FrontExists(s, size, t); }
  }

  // ---------- What a thread gave is what it pushed, and what it gets is what it popped ----------

  /** The argument thread t is called with in step e. */
  function Given(e: Event, t: int): seq<Item> { if e.CallPush? && e.t == t then [e.item] else [] }

  /** What the call of thread t returns in step e. */
  function Gotten(s: Queue, e: Event, t: int): seq<Item>
    requires Enabled(s, e)
  {
    if e == Step(t) && s.pc[t].CUnlocked? then [s.pc[t].item] else []
  }

  /** first and the arguments of the pushToQueue calls of thread t, in order. */
  function Offered(es: seq<Event>, t: int, first: seq<Item> := []): seq<Item> {
    if es == [] then first else Offered(es[1..], t, first + Given(es[0], t))
  }

  /** first and the results of the getQueueData calls of thread t that returned, in order. */
  ghost function Returned(s: Queue, es: seq<Event>, t: int, first: seq<Item> := []): seq<Item>
    requires Legal(s, es)
    decreases es
  {
    if es == [] then first else Returned(Next(s, es[0]), es[1..], t, first + Gotten(s, es[0], t))
  }

  /** The argument of a push that has not reached the list yet. */
  function Awaiting(pc: Pc): seq<Item> {
    if pc.PStart? || pc.PTookIdle? || pc.PLocked? then [pc.item] else []
  }

  /** The item of a pop that has not returned yet. */
  function Carried(pc: Pc): seq<Item> {
    if pc.CPopped? || pc.CUnlocked? then [pc.item] else []
  }

  /** What thread t appends to the list in step e. */
  function Put(s: Queue, e: Event, t: int): seq<Item>
    requires Enabled(s, e)
  {
    if e == Step(t) && s.pc[t].PLocked? then [s.pc[t].item] else []
  }

  /** What thread t takes from the list in step e. */
  function Took(s: Queue, e: Event, t: int): seq<Item>
    requires Enabled(s, e)
  {
    if e == Step(t) && s.pc[t].CLocked? && s.items != [] then [s.items[0]] else []
  }

  lemma HistoryStep(s: Queue, e: Event, t: int)
    requires Enabled(s, e)
    ensures ItemsOf(Next(s, e).pushed, t) == ItemsOf(s.pushed, t) + Put(s, e, t)
    ensures ItemsOf(Next(s, e).popped, t) == ItemsOf(s.popped, t) + Took(s, e, t)
  {
    if e.Step? && s.pc[e.t].PLocked? { ItemsOfMore(s.pushed, Entry(e.t, s.pc[e.t].item), t); }
    if e.Step? && s.pc[e.t].CLocked? && s.items != [] { ItemsOfMore(s.popped, Entry(e.t, s.items[0]), t); }
  }

  lemma HandStep(s: Queue, e: Event, t: int)
    requires Enabled(s, e) && t in s.pc
    ensures t in Next(s, e).pc
    ensures Put(s, e, t) + Awaiting(Next(s, e).pc[t]) == Awaiting(s.pc[t]) + Given(e, t)
    ensures Carried(s.pc[t]) + Took(s, e, t) == Gotten(s, e, t) + Carried(Next(s, e).pc[t])
  {}

  lemma Regroup(a: seq<Item>, b: seq<Item>, c: seq<Item>, d: seq<Item>, e: seq<Item>)
    requires b + c == d + e
    ensures (a + b) + c == (a + d) + e
  {
    assert (a + b) + c == a + (b + c) && (a + d) + e == a + (d + e);
  }

  lemma GivenStep(s: Queue, e: Event, t: int, first: seq<Item>)
    requires Enabled(s, e) && t in s.pc && ItemsOf(s.pushed, t) + Awaiting(s.pc[t]) == first
    ensures t in Next(s, e).pc && ItemsOf(Next(s, e).pushed, t) + Awaiting(Next(s, e).pc[t]) == first + Given(e, t)
  {
    HistoryStep(s, e, t);
    HandStep(s, e, t);
    Regroup(ItemsOf(s.pushed, t), Put(s, e, t), Awaiting(Next(s, e).pc[t]), Awaiting(s.pc[t]), Given(e, t));
  }

  lemma {:induction false} GivenRun(s: Queue, es: seq<Event>, t: int, first: seq<Item>)
    requires Legal(s, es) && t in s.pc && ItemsOf(s.pushed, t) + Awaiting(s.pc[t]) == first
    ensures t in Exec(s, es).pc
    ensures ItemsOf(Exec(s, es).pushed, t) + Awaiting(Exec(s, es).pc[t]) == Offered(es, t, first)
    decreases es
  {
    if es == [] {
    } else {
      GivenStep(s, es[0], t, first);
      GivenRun(Next(s, es[0]), es[1..], t, first + Given(es[0], t));
    }
  }

  lemma GotStep(s: Queue, e: Event, t: int, first: seq<Item>)
    requires Enabled(s, e) && t in s.pc && ItemsOf(s.popped, t) == first + Carried(s.pc[t])
    ensures t in Next(s, e).pc && ItemsOf(Next(s, e).popped, t) == first + Gotten(s, e, t) + Carried(Next(s, e).pc[t])
  {
    HistoryStep(s, e, t);
    HandStep(s, e, t);
    Regroup(first, Carried(s.pc[t]), Took(s, e, t), Gotten(s, e, t), Carried(Next(s, e).pc[t]));
  }

  lemma {:induction false} GotRun(s: Queue, es: seq<Event>, t: int, first: seq<Item>)
    requires Legal(s, es) && t in s.pc && ItemsOf(s.popped, t) == first + Carried(s.pc[t])
    ensures t in Exec(s, es).pc
    ensures ItemsOf(Exec(s, es).popped, t) == Returned(s, es, t, first) + Carried(Exec(s, es).pc[t])
    decreases es
  {
    if es == [] {
    } else {
      GotStep(s, es[0], t, first);
      GotRun(Next(s, es[0]), es[1..], t, first + Gotten(s, es[0], t));
    }
  }

  /**
   Delivery. In every run, what each thread was called to push is what it pushed to the list and what it is still
   about to push; and what it popped from the list is what its calls returned and what it still carries; while
   the list itself is first in, first out. So every item pushed is returned once, by the thread that popped it.
   */
  lemma Delivered(size: nat, threads: set<int>, es: seq<Event>, t: int)
    requires Legal(Start(size, threads), es) && t in threads
    ensures var s := Exec(Start(size, threads), es);
            && t in s.pc
            && Offered(es, t) == ItemsOf(s.pushed, t) + Awaiting(s.pc[t])
            && ItemsOf(s.popped, t) == Returned(Start(size, threads), es, t) + Carried(s.pc[t])
            && Items(s.pushed) == Items(s.popped) + s.items
  {
    StartInv(size, threads);
    ExecInv(Start(size, threads), es, size);
    GivenRun(Start(size, threads), es, t, []);
    GotRun(Start(size, threads), es, t, []);
  }

  /** A thread takes the head of the list, and keeps it until its call returns it. */
  lemma PopTakesHead(s: Queue, size: nat, t: int)
    requires Inv(s, size) && t in s.pc && s.pc[t].CLocked?
    ensures s.items != [] && var r := Next(s, Step(t));
            && r.pc[t] == CPopped(s.items[0]) && r.items == s.items[1..]
            && Enabled(r, Step(t)) && Next(r, Step(t)).pc[t] == CUnlocked(s.items[0])
  {
    FrontExists(s, size, t);
  }

  lemma Prepend(s: Queue, e: Event, es: seq<Event>)
    requires Enabled(s, e) && Legal(Next(s, e), es)
    ensures Legal(s, [e] + es) && Exec(s, [e] + es) == Exec(Next(s, e), es)
  {
    assert ([e] + es)[1..] == es;
  }

  /** A call of thread t with nobody else in between: the event that begins it and then five steps. */
  function Alone(e: Event): seq<Event> { [e] + [Step(e.t)] + [Step(e.t)] + [Step(e.t)] + [Step(e.t)] + [Step(e.t)] }

  lemma FiveSteps(s: Queue, e: Event, s1: Queue, s2: Queue, s3: Queue, s4: Queue, s5: Queue, r: Queue)
    requires var st := Step(e.t);
      && Enabled(s, e) && s1 == Next(s, e) && Enabled(s1, st) && s2 == Next(s1, st) && Enabled(s2, st) && s3 == Next(s2, st)
      && Enabled(s3, st) && s4 == Next(s3, st) && Enabled(s4, st) && s5 == Next(s4, st) && Enabled(s5, st) && r == Next(s5, st)
    ensures Legal(s, Alone(e)) && Exec(s, Alone(e)) == r
  {
    var st := Step(e.t);
    Prepend(s5, st, []);
    Prepend(s4, st, [st]);
    Prepend(s3, st, [st] + [st]);
    Prepend(s2, st, [st] + ([st] + [st]));
    Prepend(s1, st, [st] + ([st] + ([st] + [st])));
    Prepend(s, e, [st] + ([st] + ([st] + ([st] + [st]))));
    assert Alone(e) == [e] + ([st] + ([st] + ([st] + ([st] + [st]))));
    assert [st] + [] == [st];
  }

  lemma BackOutside(pc: map<int, Pc>, t: int, a: Pc, b: Pc, c: Pc, d: Pc, e: Pc)
    requires t in pc && pc[t] == Outside
    ensures pc[t := a][t := b][t := c][t := d][t := e][t := Outside] == pc
  {}

  /** pushToQueue of a thread that meets room and no other thread appends its item, and gives everything back but one unit. */
  lemma PushAlone(s: Queue, t: int, x: Item)
    requires Enabled(s, CallPush(t, x)) && s.idle > 0 && s.owner == None
    ensures Legal(s, Alone(CallPush(t, x)))
    ensures Exec(s, Alone(CallPush(t, x))) ==
            s.(idle := s.idle - 1, fill := s.fill + 1, items := s.items + [x], pushed := s.pushed + [Entry(t, x)])
  {
    var s1 := s.(pc := s.pc[t := PStart(x)]);
    var s2 := s1.(idle := s.idle - 1, pc := s1.pc[t := PTookIdle(x)]);
    var s3 := s2.(owner := Some(t), pc := s2.pc[t := PLocked(x)]);
    var s4 := s3.(items := s.items + [x], pushed := s.pushed + [Entry(t, x)], pc := s3.pc[t := PPushed]);
    var s5 := s4.(owner := None, pc := s4.pc[t := PUnlocked]);
    BackOutside(s.pc, t, PStart(x), PTookIdle(x), PLocked(x), PPushed, PUnlocked);
    FiveSteps(s, CallPush(t, x), s1, s2, s3, s4, s5, s5.(fill := s.fill + 1, pc := s5.pc[t := Outside]));
  }

  /** getQueueData of a thread that meets an item and no other thread takes the head of the list, and gives everything back but one unit. */
  lemma PopAlone(s: Queue, t: int)
    requires Enabled(s, CallPop(t)) && s.fill > 0 && s.owner == None && s.items != []
    ensures Legal(s, Alone(CallPop(t)))
    ensures Exec(s, Alone(CallPop(t))) ==
            s.(idle := s.idle + 1, fill := s.fill - 1, items := s.items[1..], popped := s.popped + [Entry(t, s.items[0])])
  {
    var x := s.items[0];
    var s1 := s.(pc := s.pc[t := CStart]);
    var s2 := s1.(fill := s.fill - 1, pc := s1.pc[t := CTookFill]);
    var s3 := s2.(owner := Some(t), pc := s2.pc[t := CLocked]);
    var s4 := s3.(items := s.items[1..], popped := s.popped + [Entry(t, x)], pc := s3.pc[t := CPopped(x)]);
    var s5 := s4.(owner := None, pc := s4.pc[t := CUnlocked(x)]);
    BackOutside(s.pc, t, CStart, CTookFill, CLocked, CPopped(x), CUnlocked(x));
    FiveSteps(s, CallPop(t), s1, s2, s3, s4, s5, s5.(idle := s.idle + 1, pc := s5.pc[t := Outside]));
  }

  /** The mutex excludes: two threads are never both between its lock and unlock. */
  lemma MutualExclusion(size: nat, threads: set<int>, es: seq<Event>, t: int, u: int)
    requires Legal(Start(size, threads), es)
    requires var s := Exec(Start(size, threads), es); t in s.pc && u in s.pc && HoldsMutex(s.pc[t]) && HoldsMutex(s.pc[u])
    ensures t == u
  {
    StartInv(size, threads);
    ExecInv(Start(size, threads), es, size);
  }

  predicate Pushing(pc: Pc) { pc.PStart? || pc.PTookIdle? || pc.PLocked? || pc.PPushed? || pc.PUnlocked? }
  predicate Popping(pc: Pc) { pc.CStart? || pc.CTookFill? || pc.CLocked? || pc.CPopped? || pc.CUnlocked? }

  /** With every thread outside or at its first sem_wait, nothing is in between, so one semaphore is positive. */
  lemma AllAtStart(s: Queue, size: nat)
    requires Inv(s, size) && size > 0 && forall t :: t in s.pc ==> ZoneOf(s.pc[t]) == Free
    ensures s.idle > 0 || s.fill > 0
  {
    NobodyBetween(s.pc);
  }

  /** With a positive size, as long as somebody pushes and somebody pops, some thread can take a step. */
  lemma NeverAllStuck(size: nat, threads: set<int>, es: seq<Event>, p: int, c: int)
    requires size > 0 && Legal(Start(size, threads), es)
    requires var s := Exec(Start(size, threads), es); p in s.pc && c in s.pc && Pushing(s.pc[p]) && Popping(s.pc[c])
    ensures exists t :: Enabled(Exec(Start(size, threads), es), Step(t))
  {
    StartInv(size, threads);
    ExecInv(Start(size, threads), es, size);
    var s := Exec(Start(size, threads), es);
    if s.owner != None {
      assert Enabled(s, Step(s.owner.value));
    } else if t :| t in s.pc && ZoneOf(s.pc[t]) != Free {
      assert Enabled(s, Step(t));
    } else {
      AllAtStart(s, size);
      assert Enabled(s, Step(p)) || Enabled(s, Step(c));
    }
  }
}

/** The globals of the server, updated in place by one atomic step of one thread. */
module BoundedQueueObject {
  import opened Base
  import opened BoundedQueue

  class SharedQueue {
    var idle: nat  // sem_t Idle
    var fill: nat  // sem_t Fill
    var items: seq<Item>
    var owner: Option<int>  // std::mutex Mutex
    var pc: map<int, Pc>
    ghost var pushed: seq<Entry>
    ghost var popped: seq<Entry>

    ghost function Q(): Queue
      reads this
    {
      Queue(idle, fill, items, owner, pc, pushed, popped)
    }

    constructor (queueBufferSize: nat, threads: set<int>)
      ensures Q() == Start(queueBufferSize, threads) && Inv(Q(), queueBufferSize)
    {
      idle, fill, items, owner := queueBufferSize, 0, [], None;
      pc := map t | t in threads :: Outside;
      pushed, popped := [], [];
      new;
      StartInv(queueBufferSize, threads);
    }

    /** The next step of thread t inside pushToQueue. */
    method PushStep(t: int, ghost size: nat)
      requires Inv(Q(), size) && Enabled(Q(), Step(t)) && Pushing(pc[t])
      modifies this
      ensures Q() == Next(old(Q()), Step(t)) && Inv(Q(), size)
      ensures items == old(items) + if old(pc[t]).PLocked? then [old(pc[t]).item] else []
      ensures Awaiting(old(pc[t])) == Awaiting(pc[t]) + if old(pc[t]).PLocked? then [old(pc[t]).item] else []
    {
      NextInv(Q(), Step(t), size);
      match pc[t]
      case PStart(x) => idle := idle - 1; pc := pc[t := PTookIdle(x)];
      case PTookIdle(x) => owner := Some(t); pc := pc[t := PLocked(x)];
      case PLocked(x) => items, pushed := items + [x], pushed + [Entry(t, x)]; pc := pc[t := PPushed];
      case PPushed => owner := None; pc := pc[t := PUnlocked];
      case PUnlocked => fill := fill + 1; pc := pc[t := Outside];
    }

    /** The next step of thread t inside getQueueData; conn is what the call returns when it ends. */
    method PopStep(t: int, ghost size: nat) returns (conn: Option<Item>)
      requires Inv(Q(), size) && Enabled(Q(), Step(t)) && Popping(pc[t])
      modifies this
      ensures Q() == Next(old(Q()), Step(t)) && Inv(Q(), size)
      ensures conn == if old(pc[t]).CUnlocked? then Some(old(pc[t]).item) else None
      ensures old(pc[t]).CLocked? ==> old(items) != [] && items == old(items)[1..] && pc[t] == CPopped(old(items)[0])
      ensures !old(pc[t]).CLocked? ==> items == old(items) && Carried(old(pc[t])) == Carried(pc[t]) + if conn.Some? then [conn.value] else []
    {
      NextInv(Q(), Step(t), size);
      conn := None;
      match pc[t]
      case CStart => fill := fill - 1; pc := pc[t := CTookFill];
      case CTookFill => owner := Some(t); pc := pc[t := CLocked];
      case CLocked =>
        FrontExists(Q(), size, t);
        var front := items[0];
        items, popped := items[1..], popped + [Entry(t, front)];
        pc := pc[t := CPopped(front)];
      case CPopped(x) => owner := None; pc := pc[t := CUnlocked(x)];
      case CUnlocked(x) => idle := idle + 1; pc := pc[t := Outside]; conn := Some(x);
    }
  }
}
