/** Python's `sorted` and `list.sort`: a stable sort by a total preorder. */
module Sorting {
  ghost predicate TotalPreorder<T(!new)>(le: (T, T) -> bool) {
    && (forall x, y :: le(x, y) || le(y, x))
    && (forall x, y, z :: le(x, y) && le(y, z) ==> le(x, z))
  }

  ghost predicate Sorted<T>(s: seq<T>, le: (T, T) -> bool) {
    forall i, j | 0 <= i < j < |s| :: le(s[i], s[j])
  }

  /** Puts `x` before the first element it may precede, so equals keep their order. */
  function Insert<T>(x: T, s: seq<T>, le: (T, T) -> bool): (r: seq<T>) {
    if |s| == 0 || le(x, s[0]) then [x] + s else [s[0]] + Insert(x, s[1..], le)
  }

  function Sort<T>(s: seq<T>, le: (T, T) -> bool): (r: seq<T>) {
    if |s| == 0 then [] else Insert(s[0], Sort(s[1..], le), le)
  }

  lemma {:induction false} InsertPermutes<T>(x: T, s: seq<T>, le: (T, T) -> bool)
    ensures multiset(Insert(x, s, le)) == multiset{x} + multiset(s)
  {
    if !(|s| == 0 || le(x, s[0])) {
      InsertPermutes(x, s[1..], le);
      assert s == [s[0]] + s[1..];
    }
  }

  lemma {:induction false} SortPermutes<T>(s: seq<T>, le: (T, T) -> bool)
    ensures multiset(Sort(s, le)) == multiset(s)
    ensures |Sort(s, le)| == |s|
  {
    if |s| > 0 {
      SortPermutes(s[1..], le);
      InsertPermutes(s[0], Sort(s[1..], le), le);
      assert s == [s[0]] + s[1..];
    }
    assert |multiset(Sort(s, le))| == |multiset(s)|;
  }

  lemma InMultiset<T>(s: seq<T>, t: seq<T>, i: nat)
    requires multiset(s) == multiset(t) && i < |s|
    ensures s[i] in t
  {
    assert s[i] in multiset(s);
  }

  lemma {:induction false} InsertSorts<T(!new)>(x: T, s: seq<T>, le: (T, T) -> bool)
    requires TotalPreorder(le) && Sorted(s, le)
    ensures Sorted(Insert(x, s, le), le)
  {
    if |s| > 0 {
      if le(x, s[0]) {
        assert forall k | 0 <= k < |s| :: le(x, s[k]);
      } else {
        var tail := Insert(x, s[1..], le);
        InsertSorts(x, s[1..], le);
        InsertPermutes(x, s[1..], le);
        forall k | 0 <= k < |tail| ensures le(s[0], tail[k]) {
          assert tail[k] in multiset(tail);
          assert tail[k] == x || tail[k] in s[1..];
        }
      }
    }
  }

  lemma {:induction false} SortSorts<T(!new)>(s: seq<T>, le: (T, T) -> bool)
    requires TotalPreorder(le)
    ensures Sorted(Sort(s, le), le)
  {
    if |s| > 0 {
      SortSorts(s[1..], le);
      InsertSorts(s[0], Sort(s[1..], le), le);
    }
  }

  lemma SortedHeads<T(!new)>(s: seq<T>, t: seq<T>, le: (T, T) -> bool)
    requires |s| > 0 && Sorted(s, le) && Sorted(t, le) && multiset(s) == multiset(t)
    requires forall x, y | x in s && y in s && le(x, y) && le(y, x) :: x == y
    ensures |t| == |s| && s[0] == t[0]
  {
    assert |multiset(s)| == |multiset(t)|;
    InMultiset(s, t, 0);
    InMultiset(t, s, 0);
    var i :| 0 <= i < |t| && t[i] == s[0];
    var j :| 0 <= j < |s| && s[j] == t[0];
    assert i == 0 || le(t[0], t[i]);
    assert j == 0 || le(s[0], s[j]);
  }

  lemma SameTails<T>(s: seq<T>, t: seq<T>)
    requires |s| > 0 && |t| > 0 && multiset(s) == multiset(t) && s[0] == t[0]
    ensures multiset(s[1..]) == multiset(t[1..])
  {
    assert s == [s[0]] + s[1..] && t == [t[0]] + t[1..];
    assert multiset(s[1..]) == multiset(s) - multiset{s[0]} == multiset(t[1..]);
  }

  /** Two sorted arrangements of the same elements are the same arrangement, when no two
      different elements rank equal. */
  lemma {:induction false} SortedUnique<T(!new)>(s: seq<T>, t: seq<T>, le: (T, T) -> bool)
    requires Sorted(s, le) && Sorted(t, le) && multiset(s) == multiset(t)
    requires forall x, y | x in s && y in s && le(x, y) && le(y, x) :: x == y
    ensures s == t
  {
    assert |multiset(s)| == |multiset(t)|;
    if |s| > 0 {
      SortedHeads(s, t, le);
      SameTails(s, t);
      forall x | x in s[1..] ensures x in s {}
      SortedUnique(s[1..], t[1..], le);
      assert s == [s[0]] + s[1..] && t == [t[0]] + t[1..];
    }
  }

  function Map<A, B>(f: A -> B, s: seq<A>): (r: seq<B>)
    ensures |r| == |s| && forall i | 0 <= i < |s| :: r[i] == f(s[i])
  {
    seq(|s|, i requires 0 <= i < |s| => f(s[i]))
  }

  lemma {:induction false} InsertMap<A(!new), B>(f: A -> B, x: A, s: seq<A>, le: (A, A) -> bool, le': (B, B) -> bool)
    requires forall a, b :: le'(f(a), f(b)) == le(a, b)
    ensures Insert(f(x), Map(f, s), le') == Map(f, Insert(x, s, le))
  {
    if |s| > 0 {
      assert Map(f, s)[1..] == Map(f, s[1..]);
      InsertMap(f, x, s[1..], le, le');
    }
  }

  /** Relabelling elements without changing how they rank relabels the sorted list. */
  lemma {:induction false} SortMap<A(!new), B>(f: A -> B, s: seq<A>, le: (A, A) -> bool, le': (B, B) -> bool)
    requires forall a, b :: le'(f(a), f(b)) == le(a, b)
    ensures Sort(Map(f, s), le') == Map(f, Sort(s, le))
  {
    if |s| > 0 {
      assert Map(f, s)[1..] == Map(f, s[1..]);
      SortMap(f, s[1..], le, le');
      InsertMap(f, s[0], Sort(s[1..], le), le, le');
    }
  }

  // ---------- Filtering and truncating a sorted list ----------

  function Filter<T>(s: seq<T>, keep: T -> bool): (r: seq<T>) {
    if |s| == 0 then []
    else if keep(s[0]) then [s[0]] + Filter(s[1..], keep)
    else Filter(s[1..], keep)
  }

  function Take<T>(s: seq<T>, n: nat): seq<T> {
    if n < |s| then s[..n] else s
  }

  lemma {:induction false} FilterMembers<T>(s: seq<T>, keep: T -> bool, x: T)
    ensures x in Filter(s, keep) <==> x in s && keep(x)
    ensures multiset(Filter(s, keep)) <= multiset(s)
  {
    if |s| > 0 {
      FilterMembers(s[1..], keep, x);
      assert s == [s[0]] + s[1..];
    }
  }

  /** Filtering keeps each kept element as often as it occurs. */
  lemma {:induction false} FilterBag<T>(s: seq<T>, keep: T -> bool, x: T)
    ensures multiset(Filter(s, keep))[x] == if keep(x) then multiset(s)[x] else 0
  {
    if |s| > 0 {
      FilterBag(s[1..], keep, x);
      assert s == [s[0]] + s[1..];
    }
  }

  /** Filtering the same elements in another order keeps the same elements. */
  lemma FilterOfSameBag<T(!new)>(s: seq<T>, t: seq<T>, keep: T -> bool)
    requires multiset(s) == multiset(t)
    ensures multiset(Filter(s, keep)) == multiset(Filter(t, keep)) && |Filter(s, keep)| == |Filter(t, keep)|
  {
    forall x ensures multiset(Filter(s, keep))[x] == multiset(Filter(t, keep))[x] {
      FilterBag(s, keep, x);
      FilterBag(t, keep, x);
    }
    assert multiset(Filter(s, keep)) == multiset(Filter(t, keep));
    assert |multiset(Filter(s, keep))| == |multiset(Filter(t, keep))|;
  }

  lemma {:induction false} FilterLength<T>(s: seq<T>, keep: T -> bool)
    ensures |Filter(s, keep)| <= |s|
  {
    if |s| > 0 {
      FilterLength(s[1..], keep);
    }
  }

  lemma {:induction false} FilterNone<T>(s: seq<T>, keep: T -> bool)
    requires forall i | 0 <= i < |s| :: !keep(s[i])
    ensures Filter(s, keep) == []
  {
    if |s| > 0 {
      FilterNone(s[1..], keep);
    }
  }

  lemma {:induction false} FilterAll<T>(s: seq<T>, keep: T -> bool)
    requires forall i | 0 <= i < |s| :: keep(s[i])
    ensures Filter(s, keep) == s
  {
    if |s| > 0 {
      FilterAll(s[1..], keep);
    }
  }

  lemma {:induction false} FilterAlike<T(!new)>(s: seq<T>, keep: T -> bool, keep': T -> bool)
    requires forall x | x in s :: keep(x) == keep'(x)
    ensures Filter(s, keep) == Filter(s, keep')
  {
    if |s| > 0 {
      FilterAlike(s[1..], keep, keep');
    }
  }

  lemma FilterCons<T>(x: T, s: seq<T>, keep: T -> bool)
    ensures Filter([x] + s, keep) == if keep(x) then [x] + Filter(s, keep) else Filter(s, keep)
  {
    assert ([x] + s)[1..] == s;
  }

  lemma InsertCons<T>(x: T, y: T, s: seq<T>, le: (T, T) -> bool)
    ensures Insert(x, [y] + s, le) == if le(x, y) then [x, y] + s else [y] + Insert(x, s, le)
  {
    assert ([y] + s)[1..] == s;
    assert [x] + ([y] + s) == [x, y] + s;
  }

  lemma InsertInFront<T(!new)>(x: T, s: seq<T>, le: (T, T) -> bool, keep: T -> bool)
    requires TotalPreorder(le) && Sorted(s, le) && (|s| == 0 || le(x, s[0]))
    ensures Insert(x, Filter(s, keep), le) == [x] + Filter(s, keep)
  {
    var kept := Filter(s, keep);
    if |kept| > 0 {
      FilterMembers(s, keep, kept[0]);
      var i :| 0 <= i < |s| && s[i] == kept[0];
      assert i == 0 || le(s[0], s[i]);
    }
  }

  lemma {:induction false} FilterInsert<T(!new)>(x: T, s: seq<T>, le: (T, T) -> bool, keep: T -> bool)
    requires TotalPreorder(le) && Sorted(s, le)
    ensures Filter(Insert(x, s, le), keep)
         == if keep(x) then Insert(x, Filter(s, keep), le) else Filter(s, keep)
  {
    if |s| == 0 || le(x, s[0]) {
      FilterCons(x, s, keep);
      InsertInFront(x, s, le, keep);
    } else {
      FilterInsert(x, s[1..], le, keep);
      FilterCons(s[0], Insert(x, s[1..], le), keep);
      InsertCons(x, s[0], Filter(s[1..], keep), le);
    }
  }

  lemma {:induction false} FilterCommutesWithSort<T(!new)>(s: seq<T>, le: (T, T) -> bool, keep: T -> bool)
    requires TotalPreorder(le)
    ensures Filter(Sort(s, le), keep) == Sort(Filter(s, keep), le)
  {
    if |s| > 0 {
      FilterCommutesWithSort(s[1..], le, keep);
      SortSorts(s[1..], le);
      FilterInsert(s[0], Sort(s[1..], le), le, keep);
      assert ([s[0]] + Filter(s[1..], keep))[1..] == Filter(s[1..], keep);
    }
  }

  /** Whatever ranks above a kept element is kept. */
  ghost predicate KeepsTop<T(!new)>(le: (T, T) -> bool, keep: T -> bool) {
    forall x, y :: le(x, y) && keep(y) ==> keep(x)
  }

  lemma {:induction false} NothingKeptAfter<T(!new)>(s: seq<T>, le: (T, T) -> bool, keep: T -> bool)
    requires KeepsTop(le, keep) && Sorted(s, le) && |s| > 0 && !keep(s[0])
    ensures Filter(s, keep) == []
  {
    if |s| > 1 {
      assert le(s[0], s[1]);
      NothingKeptAfter(s[1..], le, keep);
    }
  }

  lemma {:induction false} FilterCommutesWithTake<T(!new)>(s: seq<T>, n: nat, le: (T, T) -> bool, keep: T -> bool)
    requires KeepsTop(le, keep) && Sorted(s, le)
    ensures Filter(Take(s, n), keep) == Take(Filter(s, keep), n)
  {
    if |s| > 0 && n > 0 {
      if keep(s[0]) {
        assert Take(s, n)[0] == s[0] && Take(s, n)[1..] == Take(s[1..], n - 1);
        FilterCommutesWithTake(s[1..], n - 1, le, keep);
      } else {
        NothingKeptAfter(s, le, keep);
        NothingKeptAfter(Take(s, n), le, keep);
      }
    }
  }

  /** Truncate-then-filter is filter-then-truncate. */
  lemma TopKept<T(!new)>(s: seq<T>, n: nat, le: (T, T) -> bool, keep: T -> bool)
    requires TotalPreorder(le) && KeepsTop(le, keep)
    ensures Filter(Take(Sort(s, le), n), keep) == Take(Sort(Filter(s, keep), le), n)
  {
    SortSorts(s, le);
    FilterCommutesWithSort(s, le, keep);
    FilterCommutesWithTake(Sort(s, le), n, le, keep);
  }

  /** The first `n` of a sorted list are the best `n`: sorted, drawn from the list, as many
      as there is room for, and outranked by nothing left out. */
  lemma TakeIsBest<T(!new)>(s: seq<T>, n: nat, le: (T, T) -> bool)
    requires TotalPreorder(le)
    ensures var top := Take(Sort(s, le), n);
      && Sorted(top, le) && multiset(top) <= multiset(s) && |top| == (if n < |s| then n else |s|)
      && forall x, y | x in top && y in s && y !in top :: le(x, y)
  {
    var sorted := Sort(s, le);
    var top := Take(sorted, n);
    SortSorts(s, le);
    SortPermutes(s, le);
    assert sorted == top + sorted[|top|..];
    assert multiset(top) <= multiset(sorted);
    forall x, y | x in top && y in s && y !in top ensures le(x, y) {
      assert y in multiset(sorted);
      FrontOutranks(sorted, |top|, le, x, y);
    }
  }

  lemma FrontOutranks<T>(sorted: seq<T>, n: nat, le: (T, T) -> bool, x: T, y: T)
    requires Sorted(sorted, le) && n <= |sorted| && x in sorted[..n] && y in sorted && y !in sorted[..n]
    ensures le(x, y)
  {
    forall k | 0 <= k < n ensures sorted[k] in sorted[..n] {
      assert sorted[..n][k] == sorted[k];
    }
    var i :| 0 <= i < |sorted| && sorted[i] == y;
    var j :| 0 <= j < n && sorted[..n][j] == x;
    assert sorted[j] == x;
  }

  // ---------- Equals keep their order ----------

  lemma {:induction false} InsertAmongEquals<T(!new)>(x: T, s: seq<T>, le: (T, T) -> bool, keep: T -> bool)
    requires forall a, b :: keep(a) && keep(b) ==> le(a, b)
    ensures Filter(Insert(x, s, le), keep) == if keep(x) then [x] + Filter(s, keep) else Filter(s, keep)
  {
    if |s| == 0 || le(x, s[0]) {
      FilterCons(x, s, keep);
    } else {
      InsertAmongEquals(x, s[1..], le, keep);
      FilterCons(s[0], Insert(x, s[1..], le), keep);
    }
  }

  /** The sort is stable: elements that rank equal come out in the order they went in. */
  lemma {:induction false} EqualsKeepOrder<T(!new)>(s: seq<T>, le: (T, T) -> bool, keep: T -> bool)
    requires forall a, b :: keep(a) && keep(b) ==> le(a, b)
    ensures Filter(Sort(s, le), keep) == Filter(s, keep)
  {
    if |s| > 0 {
      EqualsKeepOrder(s[1..], le, keep);
      InsertAmongEquals(s[0], Sort(s[1..], le), le, keep);
    }
  }
}
