/** When the ranking is independent of the order candidates were generated in, as `rank` in
    api/insights/ranker.py promises: exactly when no two different candidates that could reach
    the slate share both a score and a facet key. */
module RankerTies {
  import opened Ranker
  import opened Text
  import Sorting

  /** Ranks strictly above `o`. */
  function Outranks(w: RankWeights, shown: set<string>, o: Observation): Observation -> bool {
    (c: Observation) => !Order(w, shown)(o, c)
  }

  /** How many candidates rank strictly above `o`. */
  function Above(obs: seq<Observation>, w: RankWeights, shown: set<string>, o: Observation): nat {
    |Sorting.Filter(obs, Outranks(w, shown, o))|
  }

  /** A candidate with a chance of a slot. */
  function Contends(obs: seq<Observation>, w: RankWeights, shown: set<string>, limit: int): Observation -> bool {
    (o: Observation) => Above(obs, w, shown, o) < limit
  }

  predicate Tied(x: Observation, y: Observation, w: RankWeights, shown: set<string>) {
    x.facetKey == y.facetKey && Score(x, w, shown) == Score(y, w, shown)
  }

  /** No two different candidates with a chance of a slot tie. */
  ghost predicate TieFree(obs: seq<Observation>, w: RankWeights, shown: set<string>, limit: int) {
    forall x, y | x in obs && y in obs && Tied(x, y, w, shown) && Contends(obs, w, shown, limit)(x) :: x == y
  }

  ghost predicate SameBag(a: seq<Observation>, b: seq<Observation>) {
    multiset(a) == multiset(b)
  }

  /** Every rearrangement of the candidates ranks to the same slate. */
  ghost predicate OrderFree(obs: seq<Observation>, w: RankWeights, shown: set<string>, limit: int) {
    forall b: seq<Observation> | SameBag(obs, b) :: Rank(b, w, shown, limit) == Rank(obs, w, shown, limit)
  }

  // ---------- Counting what ranks above ----------

  lemma TiedBothWays(x: Observation, y: Observation, w: RankWeights, shown: set<string>)
    ensures Tied(x, y, w, shown) <==> Order(w, shown)(x, y) && Order(w, shown)(y, x)
  {
    StringLeTotal(x.facetKey, y.facetKey);
  }

  lemma AboveOfSameBag(a: seq<Observation>, b: seq<Observation>, w: RankWeights, shown: set<string>, o: Observation)
    requires SameBag(a, b)
    ensures Above(a, w, shown, o) == Above(b, w, shown, o)
  {
    Sorting.FilterOfSameBag(a, b, Outranks(w, shown, o));
  }

  lemma {:induction false} MoreAboveInMore(
    a: seq<Observation>, b: seq<Observation>, keep: Observation -> bool, more: Observation -> bool)
    requires a == b && forall c | keep(c) :: more(c)
    ensures |Sorting.Filter(a, keep)| <= |Sorting.Filter(b, more)|
    decreases |a|
  {
    if |a| > 0 {
      MoreAboveInMore(a[1..], b[1..], keep, more);
    }
  }

  lemma ContendersAreTop(obs: seq<Observation>, w: RankWeights, shown: set<string>, limit: int)
    ensures Sorting.KeepsTop(Order(w, shown), Contends(obs, w, shown, limit))
  {
    OrderIsTotal(w, shown);
    var le := Order(w, shown);
    forall x, y | le(x, y) && Contends(obs, w, shown, limit)(y) ensures Contends(obs, w, shown, limit)(x) {
      forall c | Outranks(w, shown, x)(c) ensures Outranks(w, shown, y)(c) {
        assert !le(x, c);
      }
      MoreAboveInMore(obs, obs, Outranks(w, shown, x), Outranks(w, shown, y));
    }
  }

  /** In a sorted list, at most the elements before an element rank above it. */
  lemma {:induction false} AboveIsBefore(s: seq<Observation>, w: RankWeights, shown: set<string>, i: nat)
    requires Sorting.Sorted(s, Order(w, shown)) && i < |s|
    ensures Above(s, w, shown, s[i]) <= i
  {
    OrderIsTotal(w, shown);
    if i == 0 {
      Sorting.FilterNone(s, Outranks(w, shown, s[0]));
    } else {
      AboveIsBefore(s[1..], w, shown, i - 1);
    }
  }

  /** Insertion puts an element right after what ranks above it. */
  lemma {:induction false} InsertedAfterAbove(x: Observation, s: seq<Observation>, w: RankWeights, shown: set<string>)
    requires Sorting.Sorted(s, Order(w, shown))
    ensures Above(s, w, shown, x) < |Sorting.Insert(x, s, Order(w, shown))|
    ensures Sorting.Insert(x, s, Order(w, shown))[Above(s, w, shown, x)] == x
  {
    OrderIsTotal(w, shown);
    if |s| > 0 {
      if Order(w, shown)(x, s[0]) {
        forall c | c in s ensures !Outranks(w, shown, x)(c) {
          var i :| 0 <= i < |s| && s[i] == c;
          assert i == 0 || Order(w, shown)(s[0], s[i]);
        }
        Sorting.FilterNone(s, Outranks(w, shown, x));
      } else {
        InsertedAfterAbove(x, s[1..], w, shown);
      }
    }
  }

  // ---------- Without ties the order does not matter ----------

  /** The slate is drawn from the contenders alone. */
  lemma SlateOfContenders(obs: seq<Observation>, w: RankWeights, shown: set<string>, limit: nat)
    ensures Rank(obs, w, shown, limit).value
         == Sorting.Take(Sorting.Sort(Sorting.Filter(obs, Contends(obs, w, shown, limit)), Order(w, shown)), limit)
  {
    var le, keep := Order(w, shown), Contends(obs, w, shown, limit);
    var ordered := Sorting.Sort(obs, le);
    var top := Sorting.Take(ordered, limit);
    OrderIsTotal(w, shown);
    ContendersAreTop(obs, w, shown, limit);
    Sorting.SortSorts(obs, le);
    Sorting.SortPermutes(obs, le);
    forall i | 0 <= i < |top| ensures keep(top[i]) {
      AboveIsBefore(ordered, w, shown, i);
      AboveOfSameBag(ordered, obs, w, shown, ordered[i]);
    }
    Sorting.FilterAll(top, keep);
    Sorting.TopKept(obs, limit, le, keep);
  }

  lemma SameContenders(a: seq<Observation>, b: seq<Observation>, w: RankWeights, shown: set<string>, limit: int)
    requires SameBag(a, b)
    ensures Sorting.Filter(b, Contends(a, w, shown, limit)) == Sorting.Filter(b, Contends(b, w, shown, limit))
    ensures SameBag(Sorting.Filter(a, Contends(a, w, shown, limit)), Sorting.Filter(b, Contends(b, w, shown, limit)))
  {
    forall o ensures Contends(a, w, shown, limit)(o) == Contends(b, w, shown, limit)(o) {
      AboveOfSameBag(a, b, w, shown, o);
    }
    Sorting.FilterAlike(b, Contends(a, w, shown, limit), Contends(b, w, shown, limit));
    Sorting.FilterOfSameBag(a, b, Contends(a, w, shown, limit));
  }

  /** Tie-free elements sort to one list, however they are arranged. */
  lemma SortsAlike(a: seq<Observation>, b: seq<Observation>, w: RankWeights, shown: set<string>)
    requires SameBag(a, b)
    requires forall x, y | x in a && y in a && Tied(x, y, w, shown) :: x == y
    ensures Sorting.Sort(a, Order(w, shown)) == Sorting.Sort(b, Order(w, shown))
  {
    var le := Order(w, shown);
    var s, t := Sorting.Sort(a, le), Sorting.Sort(b, le);
    OrderIsTotal(w, shown);
    Sorting.SortPermutes(a, le);
    Sorting.SortPermutes(b, le);
    Sorting.SortSorts(a, le);
    Sorting.SortSorts(b, le);
    forall x, y | x in s && y in s && le(x, y) && le(y, x) ensures x == y {
      assert x in multiset(s) && y in multiset(s);
      TiedBothWays(x, y, w, shown);
    }
    Sorting.SortedUnique(s, t, le);
  }

  lemma TieFreeIsOrderFree(a: seq<Observation>, b: seq<Observation>, w: RankWeights, shown: set<string>, limit: int)
    requires SameBag(a, b) && TieFree(a, w, shown, limit)
    ensures Rank(b, w, shown, limit) == Rank(a, w, shown, limit)
  {
    if limit >= 0 {
      var ca, cb := Sorting.Filter(a, Contends(a, w, shown, limit)), Sorting.Filter(b, Contends(b, w, shown, limit));
      SlateOfContenders(a, w, shown, limit);
      SlateOfContenders(b, w, shown, limit);
      SameContenders(a, b, w, shown, limit);
      forall x, y | x in ca && y in ca && Tied(x, y, w, shown) ensures x == y {
        Sorting.FilterMembers(a, Contends(a, w, shown, limit), x);
        Sorting.FilterMembers(a, Contends(a, w, shown, limit), y);
      }
      SortsAlike(ca, cb, w, shown);
    }
  }

  // ---------- A tie follows the order of generation ----------

  /** Of two tied candidates at the head of the list, the first comes out first, right after
      everything that ranks above both. */
  lemma FirstOfTiesFirst(x: Observation, y: Observation, rest: seq<Observation>, w: RankWeights, shown: set<string>)
    requires Tied(x, y, w, shown)
    ensures var ordered := Sorting.Sort([x, y] + rest, Order(w, shown));
      Above([x, y] + rest, w, shown, x) < |ordered| && ordered[Above([x, y] + rest, w, shown, x)] == x
  {
    var le, keep := Order(w, shown), Outranks(w, shown, x);
    var later := [y] + rest;
    OrderIsTotal(w, shown);
    TiedBothWays(x, y, w, shown);
    assert [x, y] + rest == [x] + later && ([x] + later)[1..] == later;
    Sorting.FilterCons(x, later, keep);
    Sorting.SortSorts(later, le);
    Sorting.SortPermutes(later, le);
    AboveOfSameBag(later, Sorting.Sort(later, le), w, shown, x);
    InsertedAfterAbove(x, Sorting.Sort(later, le), w, shown);
  }

  lemma TiedShareWhatIsAbove(obs: seq<Observation>, x: Observation, y: Observation, w: RankWeights, shown: set<string>)
    requires Tied(x, y, w, shown)
    ensures Above(obs, w, shown, x) == Above(obs, w, shown, y)
  {
    forall c ensures Outranks(w, shown, x)(c) == Outranks(w, shown, y)(c) {
      assert Order(w, shown)(x, c) == Order(w, shown)(y, c);
    }
    Sorting.FilterAlike(obs, Outranks(w, shown, x), Outranks(w, shown, y));
  }

  /** Two tied candidates within reach of the slate come out in the order they came in, so
      swapping them changes the slate: the slot after what ranks above them goes to the first. */
  lemma SwappedTiesSwap(
    x: Observation, y: Observation, rest: seq<Observation>, w: RankWeights, shown: set<string>, limit: nat)
    requires Tied(x, y, w, shown) && Above([x, y] + rest, w, shown, x) < limit
    ensures var slot := Above([x, y] + rest, w, shown, x);
      var a, b := Rank([x, y] + rest, w, shown, limit).value, Rank([y, x] + rest, w, shown, limit).value;
      slot < |a| && slot < |b| && a[slot] == x && b[slot] == y
  {
    FirstOfTiesFirst(x, y, rest, w, shown);
    FirstOfTiesFirst(y, x, rest, w, shown);
    TiedShareWhatIsAbove([x, y] + rest, x, y, w, shown);
    assert multiset([x, y] + rest) == multiset([y, x] + rest);
    AboveOfSameBag([x, y] + rest, [y, x] + rest, w, shown, y);
  }

  lemma PullFront(obs: seq<Observation>, x: Observation) returns (rest: seq<Observation>)
    requires x in obs
    ensures SameBag(obs, [x] + rest)
  {
    var i :| 0 <= i < |obs| && obs[i] == x;
    rest := obs[..i] + obs[i + 1..];
    assert obs == obs[..i] + [x] + obs[i + 1..];
  }

  lemma OtherStays(obs: seq<Observation>, x: Observation, y: Observation, rest: seq<Observation>)
    requires y in obs && x != y && SameBag(obs, [x] + rest)
    ensures y in rest
  {
    assert y in multiset([x] + rest);
  }

  lemma PullOut(obs: seq<Observation>, x: Observation, y: Observation) returns (rest: seq<Observation>)
    requires x in obs && y in obs && x != y
    ensures SameBag(obs, [x, y] + rest) && SameBag(obs, [y, x] + rest)
  {
    var without := PullFront(obs, x);
    OtherStays(obs, x, y, without);
    rest := PullFront(without, y);
    assert [x, y] + rest == [x] + ([y] + rest);
    assert multiset([x, y] + rest) == multiset{x} + multiset(without);
    assert multiset([y, x] + rest) == multiset([x, y] + rest);
  }

  lemma TieBreaksOrderFreedom(
    obs: seq<Observation>, x: Observation, y: Observation, w: RankWeights, shown: set<string>, limit: int)
    requires x in obs && y in obs && x != y && Tied(x, y, w, shown) && Contends(obs, w, shown, limit)(x)
    ensures !OrderFree(obs, w, shown, limit)
  {
    var rest := PullOut(obs, x, y);
    AboveOfSameBag(obs, [x, y] + rest, w, shown, x);
    SwappedTiesSwap(x, y, rest, w, shown, limit);
  }

  /** The ranking never depends on the order candidates were generated in exactly when no two
      different candidates with a chance of a slot share both a score and a facet key. */
  lemma OrderFreeExactly(obs: seq<Observation>, w: RankWeights, shown: set<string>, limit: int)
    ensures OrderFree(obs, w, shown, limit) <==> TieFree(obs, w, shown, limit)
  {
    if TieFree(obs, w, shown, limit) {
      forall b: seq<Observation> | SameBag(obs, b) ensures Rank(b, w, shown, limit) == Rank(obs, w, shown, limit) {
        TieFreeIsOrderFree(obs, b, w, shown, limit);
      }
    }
    forall x, y | x in obs && y in obs && Tied(x, y, w, shown) && Contends(obs, w, shown, limit)(x) && x != y
      ensures !OrderFree(obs, w, shown, limit)
    {
      TieBreaksOrderFreedom(obs, x, y, w, shown, limit);
    }
  }

  lemma {:induction false} FewerAboveThanAll(obs: seq<Observation>, keep: Observation -> bool, x: Observation)
    requires x in obs && !keep(x)
    ensures |Sorting.Filter(obs, keep)| < |obs|
  {
    Sorting.FilterLength(obs[1..], keep);
    if obs[0] != x {
      FewerAboveThanAll(obs[1..], keep, x);
    }
  }

  /** With a slot for every candidate: exactly when no two different ones share score and key. */
  lemma RoomForAllIsOrderFreeExactly(obs: seq<Observation>, w: RankWeights, shown: set<string>, limit: int)
    requires limit >= |obs|
    ensures OrderFree(obs, w, shown, limit)
       <==> forall x, y | x in obs && y in obs && Tied(x, y, w, shown) :: x == y
  {
    OrderFreeExactly(obs, w, shown, limit);
    forall x | x in obs ensures Contends(obs, w, shown, limit)(x) {
      TiedBothWays(x, x, w, shown);
      FewerAboveThanAll(obs, Outranks(w, shown, x), x);
    }
  }

  // ---------- Distinct keys ----------

  ghost predicate DistinctKeys(obs: seq<Observation>) {
    forall i, j | 0 <= i < j < |obs| :: obs[i].facetKey != obs[j].facetKey
  }

  lemma {:induction false} AtMostOnce(a: seq<Observation>, o: Observation)
    requires DistinctKeys(a)
    ensures multiset(a)[o] == if o in a then 1 else 0
  {
    if |a| > 0 {
      AtMostOnce(a[1..], o);
      assert a == [a[0]] + a[1..];
      assert multiset(a) == multiset{a[0]} + multiset(a[1..]);
    }
  }

  /** Without repeats, the same elements are the same multiset. */
  lemma SetsAreMultisets(a: seq<Observation>, b: seq<Observation>)
    requires DistinctKeys(a) && DistinctKeys(b)
    requires forall o :: o in a <==> o in b
    ensures SameBag(a, b)
  {
    forall o ensures multiset(a)[o] == multiset(b)[o] {
      AtMostOnce(a, o);
      AtMostOnce(b, o);
    }
  }

  /** With distinct facet keys the slate depends only on the set of candidates. */
  lemma SlateDependsOnlyOnTheSet(
    a: seq<Observation>, b: seq<Observation>, w: RankWeights, shown: set<string>,
    limit: int, threshold: real, asOf: string)
    requires DistinctKeys(a) && DistinctKeys(b)
    requires forall o :: o in a <==> o in b
    ensures Rank(a, w, shown, limit) == Rank(b, w, shown, limit)
    ensures Select(a, w, shown, limit, threshold, asOf) == Select(b, w, shown, limit, threshold, asOf)
  {
    SetsAreMultisets(a, b);
    forall x, y | x in a && y in a && Tied(x, y, w, shown) ensures x == y {
      var i :| 0 <= i < |a| && a[i] == x;
      var j :| 0 <= j < |a| && a[j] == y;
    }
    TieFreeIsOrderFree(a, b, w, shown, limit);
  }

  /** Two alerts about one position, equally urgent: their order of arrival decides. */
  lemma RepeatedKeysFollowGenerationOrder()
    ensures var x := Observation("AAPL", "Up 5%", "Mon", 0.5, 0.0, 0.0, false);
      var y := x.(text := "Below target");
      Valid(x) && Valid(y)
      && Rank([x, y], DEFAULT_WEIGHTS, {}, 5).value[0] == x && Rank([y, x], DEFAULT_WEIGHTS, {}, 5).value[0] == y
  {
    var x := Observation("AAPL", "Up 5%", "Mon", 0.5, 0.0, 0.0, false);
    var y := x.(text := "Below target");
    assert x.text[0] == 'U' && y.text[0] == 'B' && x.asOf[0] == 'M';
    TiedBothWays(x, y, DEFAULT_WEIGHTS, {});
    assert [x, y] + [] == [x, y] && [y, x] + [] == [y, x];
    Sorting.FilterNone([x, y], Outranks(DEFAULT_WEIGHTS, {}, x));
    SwappedTiesSwap(x, y, [], DEFAULT_WEIGHTS, {}, 5);
  }
}
