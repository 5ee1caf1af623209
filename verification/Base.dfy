/** Sequence and set facts the component models share. */
module Base {
  const INVALID := -1  // kInvalidCid and kInvalidBid

  datatype Option<+T> = None | Some(value: T)

  ghost predicate NoDup<T>(s: seq<T>) {
    forall i, j :: 0 <= i < j < |s| ==> s[i] != s[j]
  }

  lemma EmptySeq<T>(s: seq<T>)
    ensures s == [] || exists x :: x in s
  {
    if s != [] { assert s[0] in s; }
  }

  lemma Inhabited(s: set<int>)
    ensures s == {} || exists x :: x in s
  {
    if forall x :: x in s ==> false { assert s == {}; }
  }

  /** std::find and std::list::erase: drops the first occurrence of x. */
  function RemoveFirst<T(==)>(s: seq<T>, x: T): (r: seq<T>)
    ensures x !in s ==> r == s
    ensures x in s ==> |r| == |s| - 1
    ensures forall y :: y in r ==> y in s
    ensures forall y :: y in s && y != x ==> y in r
  {
    if s == [] then []
    else if s[0] == x then s[1..]
    else [s[0]] + RemoveFirst(s[1..], x)
  }

  lemma {:induction false} RemoveFirstNoDup<T>(s: seq<T>, x: T)
    requires NoDup(s)
    ensures NoDup(RemoveFirst(s, x)) && x !in RemoveFirst(s, x)
  {
    if s != [] && s[0] != x {
      RemoveFirstNoDup(s[1..], x);
      var t := RemoveFirst(s[1..], x);
      forall i, j | 0 <= i < j < |t| + 1 ensures ([s[0]] + t)[i] != ([s[0]] + t)[j] {
        if i == 0 { assert t[j - 1] in s[1..]; }
      }
    } else if s != [] {
      assert forall y :: y in s[1..] ==> y != s[0];
    }
  }

  /** r is q without its entry x, every other entry in its place. */
  ghost predicate TakenOut<T>(q: seq<T>, x: T, r: seq<T>) {
    x !in r && if x in q then exists i :: 0 <= i < |q| && q[i] == x && r == q[..i] + q[i + 1..] else r == q
  }

  lemma TakenOutLater<T>(q: seq<T>, x: T, r: seq<T>)
    requires q != [] && q[0] != x && TakenOut(q[1..], x, r)
    ensures TakenOut(q, x, [q[0]] + r)
  {
    if x in q[1..] {
      var i :| 0 <= i < |q[1..]| && q[1..][i] == x && r == q[1..][..i] + q[1..][i + 1..];
      assert q[..i + 1] + q[i + 1 + 1..] == [q[0]] + (q[1..][..i] + q[1..][i + 1..]);
      assert q[i + 1] == x;
    } else {
      assert [q[0]] + q[1..] == q;
    }
  }

  lemma TakenOutFirst<T>(q: seq<T>)
    requires q != [] && q[0] !in q[1..]
    ensures TakenOut(q, q[0], q[1..])
  {
    assert q[..0] + q[0 + 1..] == q[1..];
  }

  lemma {:induction false} RemoveFirstTakesOut<T>(s: seq<T>, x: T)
    requires NoDup(s)
    ensures TakenOut(s, x, RemoveFirst(s, x))
  {
    if s == [] {
    } else if s[0] == x {
      TakenOutFirst(s);
    } else {
      RemoveFirstTakesOut(s[1..], x);
      TakenOutLater(s, x, RemoveFirst(s[1..], x));
    }
  }

  lemma RemoveFirstHead<T>(s: seq<T>, x: T)
    requires s != [] && s[0] == x
    ensures RemoveFirst(s, x) == s[1..]
  {}

  lemma {:induction false} RemoveFirstConcat<T>(a: seq<T>, b: seq<T>, x: T)
    requires x !in a
    ensures RemoveFirst(a + b, x) == a + RemoveFirst(b, x)
  {
    if a == [] {
      assert a + b == b;
    } else {
      assert (a + b)[0] == a[0];
      assert (a + b)[1..] == a[1..] + b;
      RemoveFirstConcat(a[1..], b, x);
    }
  }

  lemma SubsetSize<T>(a: set<T>, b: set<T>)
    requires a <= b
    ensures |a| <= |b|
  {
    assert b == a + (b - a);
  }

  lemma FullRangeSize(s: set<int>, n: nat)
    requires forall x :: 0 <= x < n <==> x in s
    ensures |s| == n
    decreases n
  {
    if n > 0 {
      FullRangeSize(s - {n - 1}, n - 1);
    } else {
      assert forall x :: x in s ==> 0 <= x < n;
    }
  }
}
