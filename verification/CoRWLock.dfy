/** The state of one CoRWLock and what each call does to it between two yields. */
module CoRWLock {
  import opened Base

  datatype LockState = UnLock | WriteLock | ReadLock
  datatype Kind = Write | Read
  datatype Waiter = Waiter(kind: Kind, cid: int)

  datatype RWLock = RWLock(state: LockState, writer: int, readers: set<int>, queue: seq<Waiter>)

  const FREE := RWLock(UnLock, INVALID, {}, [])

  /** The assertions at the head of the lock loops. */
  predicate AttemptSafe(l: RWLock, k: Kind, c: int) {
    match k
    case Write => (l.state == UnLock ==> l.writer == INVALID) && (l.state == WriteLock ==> l.writer != c)
    case Read => (l.state == UnLock ==> l.readers == {}) && (l.state == ReadLock ==> c !in l.readers)
  }

  predicate Grants(l: RWLock, k: Kind) {
    l.state == UnLock || (k == Read && l.state == ReadLock)
  }

  function Enqueue(q: seq<Waiter>, w: Waiter): seq<Waiter> {
    if w in q then q else q + [w]
  }

  /** One turn of the loop of CoRWLockWrLock or CoRWLockRdLock: takes the lock or queues the caller once. */
  function Attempt(l: RWLock, k: Kind, c: int): RWLock {
    if !Grants(l, k) then l.(queue := Enqueue(l.queue, Waiter(k, c)))
    else match k
      case Write => l.(state := WriteLock, writer := c)
      case Read => l.(state := ReadLock, readers := l.readers + {c})
  }

  /** std::list::remove. */
  function RemoveAll(q: seq<Waiter>, w: Waiter): (r: seq<Waiter>)
    ensures forall x :: x in r <==> x in q && x != w
    ensures w !in q ==> r == q
    ensures |r| <= |q|
  {
    if q == [] then [] else (if q[0] == w then [] else [q[0]]) + RemoveAll(q[1..], w)
  }

  predicate WrUnLockSafe(l: RWLock, c: int) {
    l.state == WriteLock && l.writer == c && l.readers == {}
  }

  function WrUnLock(l: RWLock, c: int): RWLock {
    l.(state := UnLock, writer := INVALID, queue := RemoveAll(l.queue, Waiter(Write, c)))
  }

  predicate RdUnLockSafe(l: RWLock, c: int) {
    l.state == ReadLock && c in l.readers
  }

  function RdUnLock(l: RWLock, c: int): RWLock {
    var readers := l.readers - {c};
    RWLock(if readers == {} then UnLock else l.state, l.writer, readers, RemoveAll(l.queue, Waiter(Read, c)))
  }

  /** The inner loop of CoRWLockResume goes on and pops the front entry. */
  predicate CanPop(l: RWLock) {
    l.queue != [] && (l.state == UnLock || (l.state == ReadLock && l.queue[0].kind == Read))
  }

  predicate HoldsWrite(l: RWLock, c: int) { l.state == WriteLock && l.writer == c }
  predicate HoldsRead(l: RWLock, c: int) { l.state == ReadLock && c in l.readers }

  predicate Holds(l: RWLock, k: Kind, c: int) {
    match k
    case Write => HoldsWrite(l, c)
    case Read => HoldsRead(l, c)
  }

  /** Everybody who holds the lock. */
  function Holders(l: RWLock): set<int> {
    match l.state
    case UnLock => {}
    case WriteLock => {l.writer}
    case ReadLock => l.readers
  }

  function ReadCount(q: seq<Waiter>): (n: nat)
    ensures n <= |q|
  {
    if q == [] then 0 else (if q[0].kind == Read then 1 else 0) + ReadCount(q[1..])
  }

  lemma {:induction false} ReadCountAppend(q: seq<Waiter>, w: Waiter)
    ensures ReadCount(q + [w]) == ReadCount(q) + (if w.kind == Read then 1 else 0)
  {
    if q == [] {
    } else {
      assert (q + [w])[1..] == q[1..] + [w];
      ReadCountAppend(q[1..], w);
    }
  }
}
