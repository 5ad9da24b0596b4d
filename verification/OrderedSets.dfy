/** Python's `sorted` of a set or of a dictionary's keys: each element once, least first. */
module OrderedSets {
  import opened Wrappers
  import Sorting

  /** A total order: elements that rank equal are equal. */
  ghost predicate LinearOrder<T(!new)>(le: (T, T) -> bool) {
    Sorting.TotalPreorder(le) && forall x, y :: le(x, y) && le(y, x) ==> x == y
  }

  ghost predicate Least<T(!new)>(x: T, s: set<T>, le: (T, T) -> bool) {
    x in s && forall y | y in s :: le(x, y)
  }

  ghost predicate Lists<T(!new)>(r: seq<T>, s: set<T>, le: (T, T) -> bool) {
    && (forall x :: x in r <==> x in s)
    && forall i, j | 0 <= i < j < |r| :: le(r[i], r[j]) && r[i] != r[j]
  }

  ghost function LeastOf<T(!new)>(s: set<T>, le: (T, T) -> bool): (x: T)
    requires LinearOrder(le) && s != {}
    ensures Least(x, s, le)
    decreases |s|
  {
    var x := AnyOf(s);
    assert forall y | y in s :: y == x || y in s - {x};
    if s - {x} == {} then x
    else
      var y := LeastOf(s - {x}, le);
      if le(x, y) then x else y
  }

  lemma LeastLeads<T(!new)>(x: T, rest: seq<T>, s: set<T>, le: (T, T) -> bool)
    requires Least(x, s, le) && Lists(rest, s - {x}, le)
    ensures Lists([x] + rest, s, le)
  {
    forall k | 0 <= k < |rest| ensures le(x, rest[k]) && x != rest[k] {
      assert rest[k] in rest;
    }
    forall y ensures y in [x] + rest <==> y in s {
      assert y in rest <==> y in s - {x};
    }
  }

  ghost function InOrder<T(!new)>(s: set<T>, le: (T, T) -> bool): (r: seq<T>)
    requires LinearOrder(le)
    ensures Lists(r, s, le)
    decreases |s|
  {
    if s == {} then []
    else
      var x := LeastOf(s, le);
      LeastLeads(x, InOrder(s - {x}, le), s, le);
      [x] + InOrder(s - {x}, le)
  }

  lemma OneLeast<T(!new)>(x: T, y: T, s: set<T>, le: (T, T) -> bool)
    requires LinearOrder(le) && Least(x, s, le) && Least(y, s, le)
    ensures x == y
  {
  }

  lemma TakeLeast<T(!new)>(r: seq<T>, x: T, rest: set<T>, le: (T, T) -> bool)
    requires LinearOrder(le) && Least(x, rest, le)
    ensures (r + [x]) + InOrder(rest - {x}, le) == r + InOrder(rest, le)
  {
    OneLeast(x, LeastOf(rest, le), rest, le);
    assert InOrder(rest, le) == [x] + InOrder(rest - {x}, le);
  }

  method LeastIn<T(!new, ==)>(s: set<T>, le: (T, T) -> bool) returns (x: T)
    requires LinearOrder(le) && s != {}
    ensures Least(x, s, le)
  {
    ghost var least := LeastOf(s, le);
    x :| x in s && forall y | y in s :: le(x, y);
  }

  method SortedSet<T(!new, ==)>(s: set<T>, le: (T, T) -> bool) returns (r: seq<T>)
    requires LinearOrder(le)
    ensures r == InOrder(s, le)
  {
    var rest := s;
    r := [];
    while rest != {}
      invariant r + InOrder(rest, le) == InOrder(s, le)
      decreases |rest|
    {
      var x := LeastIn(rest, le);
      TakeLeast(r, x, rest, le);
      r, rest := r + [x], rest - {x};
    }
  }
}
