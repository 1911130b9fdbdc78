/** Sorting a finite set by a rank: fixed-width lists compared lexicographically. */
module Sorting {
  import opened Bytes

  /** Ranks of one length that tell the elements apart. */
  ghost predicate Ranked<T(!new)>(rank: T -> seq<int>, s: set<T>) {
    forall x, y | x in s && y in s :: |rank(x)| == |rank(y)| && (rank(x) == rank(y) ==> x == y)
  }

  ghost predicate InOrder<T>(rank: T -> seq<int>, r: seq<T>) {
    forall i, j | 0 <= i < j < |r| :: LexLess(rank(r[i]), rank(r[j]))
  }

  ghost predicate IsLeast<T(!new)>(rank: T -> seq<int>, m: T, s: set<T>) {
    m in s && forall x | x in s && x != m :: LexLess(rank(m), rank(x))
  }

  lemma {:induction false} LeastExists<T(!new)>(rank: T -> seq<int>, s: set<T>) returns (m: T)
    requires Ranked(rank, s) && s != {}
    ensures IsLeast(rank, m, s)
  {
    hide LexLess;
    var first :| first in s;
    var rest := s - {first};
    assert forall x | x in s && x != first :: x in rest;
    m := first;
    if rest != {} {
      var least := LeastExists(rank, rest);
      assert first in s && least in s;
      LexTotal(rank(first), rank(least));
      if LexLess(rank(first), rank(least)) {
        forall x | x in s && x != first
          ensures LexLess(rank(first), rank(x))
        {
          if x != least {
            LexTransitive(rank(first), rank(least), rank(x));
          }
        }
      } else {
        m := least;
      }
    }
  }

  ghost function Least<T(!new)>(rank: T -> seq<int>, s: set<T>): (m: T)
    requires Ranked(rank, s) && s != {}
    ensures IsLeast(rank, m, s)
  {
    assert exists m :: IsLeast(rank, m, s) by {
      var m := LeastExists(rank, s);
    }
    var m :| IsLeast(rank, m, s);
    m
  }

  ghost function Sorted<T(!new)>(rank: T -> seq<int>, s: set<T>): (r: seq<T>)
    requires Ranked(rank, s)
    ensures InOrder(rank, r) && |r| == |s|
    ensures forall x :: x in r <==> x in s
  {
    if s == {} then [] else
    var m := Least(rank, s);
    [m] + Sorted(rank, s - {m})
  }

  /** An ordered sequence is determined by its elements. */
  lemma {:induction false} OrderUnique<T(!new)>(rank: T -> seq<int>, a: seq<T>, b: seq<T>)
    requires InOrder(rank, a) && InOrder(rank, b)
    requires forall x :: x in a <==> x in b
    ensures a == b
  {
    hide LexLess;
    if b != [] {
      assert b[0] in b;
    }
    if a != [] {
      assert a[0] in a;
      assert a[0] in b && b != [];
      assert b[0] in a;
      FirstAgree(rank, a, b);
      forall x
        ensures x in a[1..] <==> x in b[1..]
      {
        LexIrreflexive(rank(a[0]));
        assert x in a[1..] <==> x in a && x != a[0];
        assert x in b[1..] <==> x in b && x != b[0];
      }
      OrderUnique(rank, a[1..], b[1..]);
      assert a == [a[0]] + a[1..];
    }
  }

  lemma FirstAgree<T(!new)>(rank: T -> seq<int>, a: seq<T>, b: seq<T>)
    requires InOrder(rank, a) && InOrder(rank, b) && a != [] && b != []
    requires a[0] in b && b[0] in a
    ensures a[0] == b[0]
  {
    if a[0] != b[0] {
      assert LexLess(rank(b[0]), rank(a[0]));
      LexAsymmetric(rank(b[0]), rank(a[0]));
      assert false;
    }
  }

  // ----- `sort_by_key` -----

  function Insert<T>(rank: T -> seq<int>, x: T, r: seq<T>): (s: seq<T>)
    ensures multiset(s) == multiset{x} + multiset(r)
  {
    if r == [] then [x]
    else if LexLess(rank(r[0]), rank(x)) then
      assert r == [r[0]] + r[1..];
      [r[0]] + Insert(rank, x, r[1..])
    else [x] + r
  }

  /** Stable: an element stays before later ones of equal rank. */
  function Sort<T>(rank: T -> seq<int>, r: seq<T>): (s: seq<T>)
    ensures multiset(s) == multiset(r)
  {
    if r == [] then [] else
    assert r == [r[0]] + r[1..];
    Insert(rank, r[0], Sort(rank, r[1..]))
  }

  ghost predicate Apart<T>(rank: T -> seq<int>, r: seq<T>) {
    && (forall i, j | 0 <= i < |r| && 0 <= j < |r| :: |rank(r[i])| == |rank(r[j])|)
    && (forall i, j | 0 <= i < j < |r| :: rank(r[i]) != rank(r[j]))
  }

  lemma SameElements<T>(a: seq<T>, b: seq<T>)
    requires multiset(a) == multiset(b)
    ensures forall x :: x in a <==> x in b
    ensures |a| == |b|
  {
    assert forall x :: x in a <==> x in multiset(a);
    assert forall x :: x in b <==> x in multiset(b);
    assert |multiset(a)| == |a| && |multiset(b)| == |b|;
  }

  lemma {:induction false} InsertOrders<T(!new)>(rank: T -> seq<int>, x: T, r: seq<T>)
    requires InOrder(rank, r)
    requires forall y | y in r :: rank(y) != rank(x) && |rank(y)| == |rank(x)|
    ensures InOrder(rank, Insert(rank, x, r))
  {
    hide LexLess;
    if r != [] {
      LexTotal(rank(r[0]), rank(x));
      if LexLess(rank(r[0]), rank(x)) {
        var rest := Insert(rank, x, r[1..]);
        InsertOrders(rank, x, r[1..]);
        forall j | 0 <= j < |rest|
          ensures LexLess(rank(r[0]), rank(rest[j]))
        {
          assert rest[j] in multiset(rest);
          if rest[j] != x {
            assert rest[j] in multiset(r[1..]);
            assert rest[j] in r[1..];
          }
        }
      } else {
        forall j | 0 <= j < |r|
          ensures LexLess(rank(x), rank(r[j]))
        {
          if j > 0 {
            LexTransitive(rank(x), rank(r[0]), rank(r[j]));
          }
        }
      }
    }
  }

  /** On elements of distinct rank sorting gives the one ordered arrangement. */
  lemma {:induction false} SortOrders<T(!new)>(rank: T -> seq<int>, r: seq<T>)
    requires Apart(rank, r)
    ensures InOrder(rank, Sort(rank, r))
  {
    if r != [] {
      var rest := Sort(rank, r[1..]);
      SortOrders(rank, r[1..]);
      SameElements(rest, r[1..]);
      forall y | y in rest
        ensures rank(y) != rank(r[0]) && |rank(y)| == |rank(r[0])|
      {
        assert y in r[1..];
      }
      InsertOrders(rank, r[0], rest);
    }
  }

  /** Sorting does not depend on the order the elements arrive in. */
  lemma SortSame<T(!new)>(rank: T -> seq<int>, a: seq<T>, b: seq<T>)
    requires Apart(rank, a) && Apart(rank, b)
    requires forall x :: x in a <==> x in b
    ensures Sort(rank, a) == Sort(rank, b)
  {
    SortOrders(rank, a);
    SortOrders(rank, b);
    SameElements(Sort(rank, a), a);
    SameElements(Sort(rank, b), b);
    OrderUnique(rank, Sort(rank, a), Sort(rank, b));
  }
}
