/** One merged ledger from many accounts, replayed per (account, ticker):
    `build_portfolio_ledger` in api/services/analytics.py. */
module PortfolioLedger {
  import opened Wrappers
  import opened FifoLedger
  import opened LedgerReplay
  import Sorting

  type Acct = int

  datatype Entry = Entry(acct: Acct, txn: Txn)
  datatype Key = Key(acct: Acct, ticker: Ticker)
  datatype Incomplete = Incomplete(acct: Acct, ticker: Ticker, error: Oversold)
  datatype Merged = Merged(books: Books, incomplete: seq<Incomplete>)

  function KeyOf(e: Entry): Key {
    Key(e.acct, e.txn.ticker)
  }

  // ---------- Groups ----------

  /** The keys of the transactions, each once, in order of first appearance. */
  function Keys(txns: seq<Entry>): seq<Key> {
    if |txns| == 0 then []
    else
      var most, k := Keys(txns[..|txns| - 1]), KeyOf(txns[|txns| - 1]);
      if k in most then most else most + [k]
  }

  function Group(txns: seq<Entry>, k: Key): seq<Txn> {
    if |txns| == 0 then []
    else
      var most, last := Group(txns[..|txns| - 1], k), txns[|txns| - 1];
      if KeyOf(last) == k then most + [last.txn] else most
  }

  function Kept(txns: seq<Entry>, keep: Entry -> bool): seq<Entry> {
    if |txns| == 0 then []
    else
      var most, last := Kept(txns[..|txns| - 1], keep), txns[|txns| - 1];
      if keep(last) then most + [last] else most
  }

  ghost predicate NoRepeats<T(!new)>(s: seq<T>) {
    forall i, j | 0 <= i < j < |s| :: s[i] != s[j]
  }

  lemma {:induction false} KeysAreTheGroups(txns: seq<Entry>)
    ensures NoRepeats(Keys(txns))
    ensures forall k :: k in Keys(txns) <==> Group(txns, k) != []
    decreases |txns|
  {
    if |txns| > 0 {
      KeysAreTheGroups(txns[..|txns| - 1]);
    }
  }

  /** Keys come in order of first appearance: more transactions only add keys behind. */
  lemma {:induction false} KeysOnlyGrow(a: seq<Entry>, b: seq<Entry>)
    ensures Keys(a) <= Keys(a + b)
    decreases |b|
  {
    if |b| == 0 {
      assert a + b == a;
    } else {
      assert (a + b)[..|a + b| - 1] == a + b[..|b| - 1];
      KeysOnlyGrow(a, b[..|b| - 1]);
    }
  }

  lemma {:induction false} GroupOfKept(txns: seq<Entry>, keep: Entry -> bool, k: Key)
    ensures (forall e | e in txns && KeyOf(e) == k :: keep(e)) ==> Group(Kept(txns, keep), k) == Group(txns, k)
    ensures (forall e | e in txns && KeyOf(e) == k :: !keep(e)) ==> Group(Kept(txns, keep), k) == []
    decreases |txns|
  {
    if |txns| > 0 {
      var most, last := txns[..|txns| - 1], txns[|txns| - 1];
      assert last in txns && forall e | e in most :: e in txns;
      GroupOfKept(most, keep, k);
      var kept := Kept(most, keep);
      assert (kept + [last])[..|kept|] == kept;
    }
  }

  // ---------- Merging ----------

  function Lots(m: map<Ticker, seq<Lot>>, t: Ticker): seq<Lot> {
    if t in m then m[t] else []
  }

  function Extended(m: map<Ticker, seq<Lot>>, more: map<Ticker, seq<Lot>>): map<Ticker, seq<Lot>> {
    map t | t in m.Keys + more.Keys :: Lots(m, t) + Lots(more, t)
  }

  function Joined(a: Books, b: Books): Books {
    Books(Extended(a.openLots, b.openLots), a.realized + b.realized, a.cash + b.cash)
  }

  /** One group's replay added to the merge, or the group recorded as incomplete. */
  function WithReplay(m: Merged, k: Key, replay: Result<Books, Oversold>): Merged {
    match replay
    case Err(e) => m.(incomplete := m.incomplete + [Incomplete(k.acct, k.ticker, e)])
    case Ok(b) => m.(books := Joined(m.books, b))
  }

  function Added(m: Merged, k: Key, group: seq<Txn>): Merged {
    WithReplay(m, k, Built(group))
  }

  function Collected(txns: seq<Entry>, ks: seq<Key>): Merged {
    if |ks| == 0 then Merged(EMPTY, [])
    else Added(Collected(txns, ks[..|ks| - 1]), ks[|ks| - 1], Group(txns, ks[|ks| - 1]))
  }

  function ByOpenDate(): (Lot, Lot) -> bool {
    (a: Lot, b: Lot) => a.openDate <= b.openDate
  }

  function ByCloseDate(): (RealizedGain, RealizedGain) -> bool {
    (a: RealizedGain, b: RealizedGain) => a.closeDate <= b.closeDate
  }

  function InDateOrder(m: Merged): Merged {
    m.(books := Books(map t | t in m.books.openLots :: Sorting.Sort(m.books.openLots[t], ByOpenDate()),
                      Sorting.Sort(m.books.realized, ByCloseDate()), m.books.cash))
  }

  function MergedLedger(txns: seq<Entry>): Merged {
    InDateOrder(Collected(txns, Keys(txns)))
  }

  // ---------- The loops ----------

  method GroupByKey(txns: seq<Entry>) returns (order: seq<Key>, groups: map<Key, seq<Txn>>)
    ensures order == Keys(txns) && forall k | k in order :: k in groups && groups[k] == Group(txns, k)
  {
    order, groups := [], map[];
    for i := 0 to |txns|
      invariant order == Keys(txns[..i]) && forall k :: k in groups <==> k in order
      invariant forall k | k in groups :: groups[k] == Group(txns[..i], k)
    {
      var k := KeyOf(txns[i]);
      assert txns[..i + 1][..i] == txns[..i];
      KeysAreTheGroups(txns[..i]);
      if k !in groups {
        order, groups := order + [k], groups[k := []];
      }
      groups := groups[k := groups[k] + [txns[i].txn]];
    }
    assert txns[..|txns|] == txns;
  }

  function Part(more: map<Ticker, seq<Lot>>, done: set<Ticker>): map<Ticker, seq<Lot>> {
    map t | t in more && t in done :: more[t]
  }

  lemma ExtendedByNone(m: map<Ticker, seq<Lot>>, more: map<Ticker, seq<Lot>>)
    ensures Extended(m, Part(more, {})) == m && Part(more, more.Keys) == more
  {
    assert Part(more, {}) == map[];
    forall t | t in m ensures Lots(m, t) + Lots(map[], t) == m[t] {}
  }

  lemma LotsUntouched(m: map<Ticker, seq<Lot>>, more: map<Ticker, seq<Lot>>, t: Ticker)
    requires t !in more
    ensures Lots(Extended(m, more), t) == Lots(m, t)
  {
    assert Lots(m, t) + [] == Lots(m, t);
  }

  lemma ExtendedByOne(m: map<Ticker, seq<Lot>>, more: map<Ticker, seq<Lot>>, done: set<Ticker>, t: Ticker)
    requires t in more && t !in done
    ensures var r := Extended(m, Part(more, done));
      Extended(m, Part(more, done + {t})) == r[t := Lots(r, t) + more[t]]
  {
    var r, wider := Extended(m, Part(more, done)), Extended(m, Part(more, done + {t}));
    LotsUntouched(m, Part(more, done), t);
    assert wider.Keys == r.Keys + {t};
    forall u | u in r && u != t ensures wider[u] == r[u] {}
  }

  method ExtendLots(m: map<Ticker, seq<Lot>>, more: map<Ticker, seq<Lot>>) returns (r: map<Ticker, seq<Lot>>)
    ensures r == Extended(m, more)
  {
    r := m;
    ExtendedByNone(m, more);
    var rest := more.Keys;
    assert more.Keys - rest == {};
    while rest != {}
      invariant rest <= more.Keys && r == Extended(m, Part(more, more.Keys - rest))
    {
      var t :| t in rest;
      assert more.Keys - (rest - {t}) == more.Keys - rest + {t};
      ExtendedByOne(m, more, more.Keys - rest, t);
      if t !in r {
        r := r[t := []];
      }
      r, rest := r[t := r[t] + more[t]], rest - {t};
    }
    assert more.Keys - rest == more.Keys;
  }

  method AddGroup(m: Merged, k: Key, group: seq<Txn>) returns (r: Merged)
    ensures r == Added(m, k, group)
  {
    var ledger, failure := BuildLedger(group);
    if failure.Some? {
      return m.(incomplete := m.incomplete + [Incomplete(k.acct, k.ticker, failure.value)]);
    }
    var lots := ExtendLots(m.books.openLots, ledger.openLots);
    r := m.(books := Books(lots, m.books.realized + ledger.realized, m.books.cash + ledger.cash));
  }

  method BuildPortfolioLedger(txns: seq<Entry>) returns (r: Merged)
    ensures r == MergedLedger(txns)
  {
    var order, groups := GroupByKey(txns);
    var m := Merged(EMPTY, []);
    for i := 0 to |order|
      invariant m == Collected(txns, order[..i])
    {
      assert order[..i + 1][..i] == order[..i];
      m := AddGroup(m, order[i], groups[order[i]]);
    }
    assert order[..|order|] == order;
    r := InDateOrder(m);
  }

  // ---------- What a merge amounts to, order aside ----------

  /** A ledger's content for one ticker with the order of lists forgotten. */
  datatype Tally = Tally(
    lots: multiset<Lot>, realized: multiset<RealizedGain>, incomplete: multiset<Incomplete>, cash: real)

  const NOTHING := Tally(multiset{}, multiset{}, multiset{}, 0.0)

  function Plus(a: Tally, b: Tally): Tally {
    Tally(a.lots + b.lots, a.realized + b.realized, a.incomplete + b.incomplete, a.cash + b.cash)
  }

  function TallyOf(m: Merged, t: Ticker): Tally {
    Tally(multiset(LotsOf(m.books, t)), multiset(m.books.realized), multiset(m.incomplete), m.books.cash)
  }

  function ReplayTally(k: Key, replay: Result<Books, Oversold>, t: Ticker): Tally {
    match replay
    case Err(e) => Tally(multiset{}, multiset{}, multiset{Incomplete(k.acct, k.ticker, e)}, 0.0)
    case Ok(b) => Tally(multiset(LotsOf(b, t)), multiset(b.realized), multiset{}, b.cash)
  }

  function GroupTally(k: Key, group: seq<Txn>, t: Ticker): Tally {
    ReplayTally(k, Built(group), t)
  }

  function Gathered(txns: seq<Entry>, ks: seq<Key>, t: Ticker): Tally {
    if |ks| == 0 then NOTHING
    else Plus(Gathered(txns, ks[..|ks| - 1], t), GroupTally(ks[|ks| - 1], Group(txns, ks[|ks| - 1]), t))
  }

  lemma ExtendedAt(a: Books, b: Books, t: Ticker)
    ensures Lots(Extended(a.openLots, b.openLots), t) == LotsOf(a, t) + LotsOf(b, t)
  {
    assert LotsOf(a, t) == Lots(a.openLots, t) && LotsOf(b, t) == Lots(b.openLots, t);
  }

  lemma JoinedTally(m: Merged, b: Books, t: Ticker)
    ensures TallyOf(m.(books := Joined(m.books, b)), t)
         == Plus(TallyOf(m, t), Tally(multiset(LotsOf(b, t)), multiset(b.realized), multiset{}, b.cash))
  {
    ExtendedAt(m.books, b, t);
    assert LotsOf(Joined(m.books, b), t) == LotsOf(m.books, t) + LotsOf(b, t);
  }

  lemma IncompleteTally(m: Merged, i: Incomplete, t: Ticker)
    ensures TallyOf(m.(incomplete := m.incomplete + [i]), t)
         == Plus(TallyOf(m, t), Tally(multiset{}, multiset{}, multiset{i}, 0.0))
  {
  }

  lemma WithReplayTally(m: Merged, k: Key, replay: Result<Books, Oversold>, t: Ticker)
    ensures TallyOf(WithReplay(m, k, replay), t) == Plus(TallyOf(m, t), ReplayTally(k, replay, t))
  {
    if replay.Ok? {
      JoinedTally(m, replay.value, t);
    } else {
      IncompleteTally(m, Incomplete(k.acct, k.ticker, replay.error), t);
    }
  }

  lemma {:induction false} CollectedTally(txns: seq<Entry>, ks: seq<Key>, t: Ticker)
    ensures TallyOf(Collected(txns, ks), t) == Gathered(txns, ks, t)
    decreases |ks|
  {
    if |ks| > 0 {
      CollectedTally(txns, ks[..|ks| - 1], t);
      WithReplayTally(Collected(txns, ks[..|ks| - 1]), ks[|ks| - 1], Built(Group(txns, ks[|ks| - 1])), t);
    }
  }

  lemma LotsByOpenDate(lots: seq<Lot>)
    ensures var ordered := Sorting.Sort(lots, ByOpenDate());
      forall i, j | 0 <= i < j < |ordered| :: ordered[i].openDate <= ordered[j].openDate
  {
    var ordered := Sorting.Sort(lots, ByOpenDate());
    Sorting.SortSorts(lots, ByOpenDate());
    forall i, j | 0 <= i < j < |ordered| ensures ordered[i].openDate <= ordered[j].openDate {
      assert ByOpenDate()(ordered[i], ordered[j]);
    }
  }

  lemma GainsByCloseDate(gains: seq<RealizedGain>)
    ensures var ordered := Sorting.Sort(gains, ByCloseDate());
      forall i, j | 0 <= i < j < |ordered| :: ordered[i].closeDate <= ordered[j].closeDate
  {
    var ordered := Sorting.Sort(gains, ByCloseDate());
    Sorting.SortSorts(gains, ByCloseDate());
    forall i, j | 0 <= i < j < |ordered| ensures ordered[i].closeDate <= ordered[j].closeDate {
      assert ByCloseDate()(ordered[i], ordered[j]);
    }
  }

  /** The merged ledger is the sum of its groups' replays, lots by opening and gains by closing date. */
  lemma MergeIsTheSumOfItsGroups(txns: seq<Entry>, t: Ticker)
    ensures TallyOf(MergedLedger(txns), t) == Gathered(txns, Keys(txns), t)
    ensures var lots := LotsOf(MergedLedger(txns).books, t);
      forall i, j | 0 <= i < j < |lots| :: lots[i].openDate <= lots[j].openDate
    ensures var gains := MergedLedger(txns).books.realized;
      forall i, j | 0 <= i < j < |gains| :: gains[i].closeDate <= gains[j].closeDate
  {
    var m := Collected(txns, Keys(txns));
    CollectedTally(txns, Keys(txns), t);
    Sorting.SortPermutes(LotsOf(m.books, t), ByOpenDate());
    LotsByOpenDate(LotsOf(m.books, t));
    Sorting.SortPermutes(m.books.realized, ByCloseDate());
    GainsByCloseDate(m.books.realized);
  }

  function OpenedOn(day: int): Lot -> bool {
    (lot: Lot) => lot.openDate == day
  }

  function ClosedOn(day: int): RealizedGain -> bool {
    (gain: RealizedGain) => gain.closeDate == day
  }

  function GroupGains(group: seq<Txn>): seq<RealizedGain> {
    match Built(group)
    case Ok(b) => b.realized
    case Err(_) => []
  }

  function GroupLots(group: seq<Txn>, t: Ticker): seq<Lot> {
    match Built(group)
    case Ok(b) => LotsOf(b, t)
    case Err(_) => []
  }

  function Concat<T>(parts: seq<seq<T>>): seq<T> {
    if |parts| == 0 then [] else parts[0] + Concat(parts[1..])
  }

  lemma {:induction false} ConcatLast<T>(most: seq<seq<T>>, last: seq<T>)
    ensures Concat(most + [last]) == Concat(most) + last
  {
    if |most| == 0 {
      assert most + [last] == [last] && [last][1..] == [];
    } else {
      assert (most + [last])[1..] == most[1..] + [last];
      ConcatLast(most[1..], last);
    }
  }

  /** The groups' gains one group after the other; a group that cannot be replayed has none. */
  function GainsInGroupOrder(txns: seq<Entry>, ks: seq<Key>): seq<RealizedGain> {
    Concat(seq(|ks|, i requires 0 <= i < |ks| => GroupGains(Group(txns, ks[i]))))
  }

  function LotsInGroupOrder(txns: seq<Entry>, ks: seq<Key>, t: Ticker): seq<Lot> {
    Concat(seq(|ks|, i requires 0 <= i < |ks| => GroupLots(Group(txns, ks[i]), t)))
  }

  lemma GainsOfLast(txns: seq<Entry>, most: seq<Key>, last: Key)
    ensures GainsInGroupOrder(txns, most + [last]) == GainsInGroupOrder(txns, most) + GroupGains(Group(txns, last))
  {
    var ks := most + [last];
    var parts := seq(|most|, i requires 0 <= i < |most| => GroupGains(Group(txns, most[i])));
    assert seq(|ks|, i requires 0 <= i < |ks| => GroupGains(Group(txns, ks[i])))
        == parts + [GroupGains(Group(txns, last))];
    ConcatLast(parts, GroupGains(Group(txns, last)));
  }

  lemma LotsOfLast(txns: seq<Entry>, most: seq<Key>, last: Key, t: Ticker)
    ensures LotsInGroupOrder(txns, most + [last], t)
         == LotsInGroupOrder(txns, most, t) + GroupLots(Group(txns, last), t)
  {
    var ks := most + [last];
    var parts := seq(|most|, i requires 0 <= i < |most| => GroupLots(Group(txns, most[i]), t));
    assert seq(|ks|, i requires 0 <= i < |ks| => GroupLots(Group(txns, ks[i]), t))
        == parts + [GroupLots(Group(txns, last), t)];
    ConcatLast(parts, GroupLots(Group(txns, last), t));
  }

  lemma {:induction false} CollectedInGroupOrder(txns: seq<Entry>, ks: seq<Key>, t: Ticker)
    ensures Collected(txns, ks).books.realized == GainsInGroupOrder(txns, ks)
    ensures LotsOf(Collected(txns, ks).books, t) == LotsInGroupOrder(txns, ks, t)
    decreases |ks|
  {
    if |ks| > 0 {
      var most, last := ks[..|ks| - 1], ks[|ks| - 1];
      assert ks == most + [last];
      CollectedInGroupOrder(txns, most, t);
      GainsOfLast(txns, most, last);
      LotsOfLast(txns, most, last, t);
      if Built(Group(txns, last)).Ok? {
        ExtendedAt(Collected(txns, most).books, Built(Group(txns, last)).value, t);
      }
    }
  }

  /** Lots opened and gains closed on one day come in the order of their groups, which is that of first
      appearance, and within a group in its own. */
  lemma MergeKeepsGroupOrder(txns: seq<Entry>, t: Ticker, day: int)
    ensures Sorting.Filter(LotsOf(MergedLedger(txns).books, t), OpenedOn(day))
         == Sorting.Filter(LotsInGroupOrder(txns, Keys(txns), t), OpenedOn(day))
    ensures Sorting.Filter(MergedLedger(txns).books.realized, ClosedOn(day))
         == Sorting.Filter(GainsInGroupOrder(txns, Keys(txns)), ClosedOn(day))
  {
    var m := Collected(txns, Keys(txns));
    CollectedInGroupOrder(txns, Keys(txns), t);
    Sorting.EqualsKeepOrder(LotsOf(m.books, t), ByOpenDate(), OpenedOn(day));
    Sorting.EqualsKeepOrder(m.books.realized, ByCloseDate(), ClosedOn(day));
  }

  lemma PlusMoves(a: Tally, b: Tally, c: Tally)
    ensures Plus(Plus(a, b), c) == Plus(a, Plus(b, c)) && Plus(Plus(a, b), c) == Plus(Plus(a, c), b)
  {
  }

  lemma {:induction false} GatheredSplit(txns: seq<Entry>, a: seq<Key>, b: seq<Key>, t: Ticker)
    ensures Gathered(txns, a + b, t) == Plus(Gathered(txns, a, t), Gathered(txns, b, t))
    decreases |b|
  {
    if |b| == 0 {
      assert a + b == a;
    } else {
      var most, last := b[..|b| - 1], b[|b| - 1];
      assert (a + b)[..|a + b| - 1] == a + most;
      GatheredSplit(txns, a, most, t);
      PlusMoves(Gathered(txns, a, t), Gathered(txns, most, t), GroupTally(last, Group(txns, last), t));
    }
  }

  lemma PlusNothing(x: Tally)
    ensures Plus(NOTHING, x) == x
  {
  }

  lemma GatheredOne(txns: seq<Entry>, k: Key, t: Ticker)
    ensures Gathered(txns, [k], t) == GroupTally(k, Group(txns, k), t)
  {
    var one := [k];
    assert one[..|one| - 1] == [];
    PlusNothing(GroupTally(k, Group(txns, k), t));
  }

  lemma GatheredRemove(txns: seq<Entry>, a: seq<Key>, k: Key, b: seq<Key>, t: Ticker)
    ensures Gathered(txns, a + [k] + b, t) == Plus(Gathered(txns, a + b, t), GroupTally(k, Group(txns, k), t))
  {
    GatheredSplit(txns, a + [k], b, t);
    GatheredSplit(txns, a, [k], t);
    GatheredSplit(txns, a, b, t);
    GatheredOne(txns, k, t);
    PlusMoves(Gathered(txns, a, t), GroupTally(k, Group(txns, k), t), Gathered(txns, b, t));
  }

  lemma RemovedKeepsMultiset<T>(a: seq<T>, k: T, b: seq<T>, most: seq<T>)
    requires multiset(a + [k] + b) == multiset(most + [k])
    ensures multiset(a + b) == multiset(most)
  {
    assert multiset(a + [k] + b) == multiset(a + b) + multiset{k};
    assert multiset(most + [k]) == multiset(most) + multiset{k};
    assert multiset(a + b) + multiset{k} - multiset{k} == multiset(a + b);
    assert multiset(most) + multiset{k} - multiset{k} == multiset(most);
  }

  lemma Around<T>(s: seq<T>, x: T) returns (before: seq<T>, after: seq<T>)
    requires x in s
    ensures s == before + [x] + after
  {
    var i :| 0 <= i < |s| && s[i] == x;
    before, after := s[..i], s[i + 1..];
  }

  lemma {:induction false} GatheredPermutes(txns: seq<Entry>, ks: seq<Key>, ks': seq<Key>, t: Ticker)
    requires multiset(ks) == multiset(ks')
    ensures Gathered(txns, ks, t) == Gathered(txns, ks', t)
    decreases |ks'|
  {
    if |ks'| == 0 {
      assert |multiset(ks)| == 0;
    } else {
      var most, k := ks'[..|ks'| - 1], ks'[|ks'| - 1];
      assert ks' == most + [k];
      assert k in multiset(ks');
      var before, after := Around(ks, k);
      RemovedKeepsMultiset(before, k, after, most);
      GatheredRemove(txns, before, k, after, t);
      GatheredPermutes(txns, before + after, most, t);
      GatheredRemove(txns, most, k, [], t);
      assert most + [k] + [] == ks' && most + [] == most;
    }
  }

  lemma {:induction false} GatheredSame(x: seq<Entry>, y: seq<Entry>, ks: seq<Key>, t: Ticker)
    requires forall k | k in ks :: Group(x, k) == Group(y, k)
    ensures Gathered(x, ks, t) == Gathered(y, ks, t)
    decreases |ks|
  {
    if |ks| > 0 {
      assert ks[|ks| - 1] in ks;
      GatheredSame(x, y, ks[..|ks| - 1], t);
    }
  }

  lemma {:induction false} CountsOfNoRepeats<T(!new)>(s: seq<T>, x: T)
    requires NoRepeats(s)
    ensures multiset(s)[x] == if x in s then 1 else 0
    decreases |s|
  {
    if |s| > 0 {
      var most, last := s[..|s| - 1], s[|s| - 1];
      assert s == most + [last];
      CountsOfNoRepeats(most, x);
    }
  }

  lemma SameMembersSameMultiset<T(!new)>(s: seq<T>, s': seq<T>)
    requires NoRepeats(s) && NoRepeats(s') && forall x :: x in s <==> x in s'
    ensures multiset(s) == multiset(s')
  {
    forall x ensures multiset(s)[x] == multiset(s')[x] {
      CountsOfNoRepeats(s, x);
      CountsOfNoRepeats(s', x);
    }
  }

  // ---------- The merged ledger over accounts ----------

  /** Only the order within each (account, ticker) matters: interleave the groups as you like. */
  lemma InterleavingDoesNotMatter(x: seq<Entry>, y: seq<Entry>, t: Ticker)
    requires forall k :: Group(x, k) == Group(y, k)
    ensures TallyOf(MergedLedger(x), t) == TallyOf(MergedLedger(y), t)
  {
    MergeIsTheSumOfItsGroups(x, t);
    MergeIsTheSumOfItsGroups(y, t);
    KeysAreTheGroups(x);
    KeysAreTheGroups(y);
    SameMembersSameMultiset(Keys(x), Keys(y));
    GatheredPermutes(x, Keys(x), Keys(y), t);
    GatheredSame(x, y, Keys(y), t);
  }

  function In(accts: set<Acct>): Entry -> bool {
    (e: Entry) => e.acct in accts
  }

  function Without(k: Key): Entry -> bool {
    (e: Entry) => KeyOf(e) != k
  }

  lemma GroupWithin(txns: seq<Entry>, accts: set<Acct>, k: Key)
    ensures Group(Kept(txns, In(accts)), k) == if k.acct in accts then Group(txns, k) else []
  {
    GroupOfKept(txns, In(accts), k);
  }

  lemma JoinedKeys(txns: seq<Entry>, a: set<Acct>, b: set<Acct>)
    requires a !! b && forall e | e in txns :: e.acct in a + b
    ensures multiset(Keys(txns)) == multiset(Keys(Kept(txns, In(a))) + Keys(Kept(txns, In(b))))
  {
    var xs, ys := Kept(txns, In(a)), Kept(txns, In(b));
    KeysAreTheGroups(txns);
    KeysAreTheGroups(xs);
    KeysAreTheGroups(ys);
    forall k ensures k in Keys(txns) <==> k in Keys(xs) + Keys(ys) {
      GroupWithin(txns, a, k);
      GroupWithin(txns, b, k);
      GroupOwner(txns, k);
    }
    var joined := Keys(xs) + Keys(ys);
    forall i, j | 0 <= i < j < |joined| ensures joined[i] != joined[j] {
      if i < |Keys(xs)| <= j {
        assert joined[i] in Keys(xs) && joined[j] in Keys(ys);
        GroupWithin(txns, a, joined[i]);
        GroupWithin(txns, b, joined[j]);
      }
    }
    SameMembersSameMultiset(Keys(txns), joined);
  }

  lemma {:induction false} GroupOwner(txns: seq<Entry>, k: Key)
    ensures Group(txns, k) != [] ==> exists e :: e in txns && KeyOf(e) == k
    decreases |txns|
  {
    if |txns| > 0 {
      GroupOwner(txns[..|txns| - 1], k);
      assert txns[|txns| - 1] in txns;
    }
  }

  /** The merged ledger splits over accounts: lots, realized gains and incomplete groups of a
      union of disjoint account sets are the multiset unions, and cash is the sum. */
  lemma MergeSplitsOverAccounts(txns: seq<Entry>, a: set<Acct>, b: set<Acct>, t: Ticker)
    requires a !! b && forall e | e in txns :: e.acct in a + b
    ensures TallyOf(MergedLedger(txns), t)
         == Plus(TallyOf(MergedLedger(Kept(txns, In(a))), t), TallyOf(MergedLedger(Kept(txns, In(b))), t))
  {
    var xs, ys := Kept(txns, In(a)), Kept(txns, In(b));
    MergeIsTheSumOfItsGroups(txns, t);
    MergeIsTheSumOfItsGroups(xs, t);
    MergeIsTheSumOfItsGroups(ys, t);
    JoinedKeys(txns, a, b);
    GatheredPermutes(txns, Keys(txns), Keys(xs) + Keys(ys), t);
    GatheredSplit(txns, Keys(xs), Keys(ys), t);
    SameWithin(txns, a, t);
    SameWithin(txns, b, t);
  }

  lemma SameWithin(txns: seq<Entry>, accts: set<Acct>, t: Ticker)
    ensures var xs := Kept(txns, In(accts)); Gathered(txns, Keys(xs), t) == Gathered(xs, Keys(xs), t)
  {
    var xs := Kept(txns, In(accts));
    KeysAreTheGroups(xs);
    forall k | k in Keys(xs) ensures Group(txns, k) == Group(xs, k) {
      GroupWithin(txns, accts, k);
    }
    GatheredSame(txns, xs, Keys(xs), t);
  }

  lemma KeysWithout(txns: seq<Entry>, k: Key)
    requires k in Keys(txns)
    ensures multiset(Keys(txns)) == multiset(Keys(Kept(txns, Without(k))) + [k])
  {
    var rest := Kept(txns, Without(k));
    KeysAreTheGroups(txns);
    KeysAreTheGroups(rest);
    forall k' ensures k' in Keys(txns) <==> k' in Keys(rest) + [k] {
      GroupOfKept(txns, Without(k), k');
    }
    GroupOfKept(txns, Without(k), k);
    assert k !in Keys(rest);
    SameMembersSameMultiset(Keys(txns), Keys(rest) + [k]);
  }

  lemma SameWithout(txns: seq<Entry>, k: Key, t: Ticker)
    ensures var rest := Kept(txns, Without(k)); Gathered(txns, Keys(rest), t) == Gathered(rest, Keys(rest), t)
  {
    var rest := Kept(txns, Without(k));
    KeysAreTheGroups(rest);
    forall k' | k' in Keys(rest) ensures Group(txns, k') == Group(rest, k') {
      GroupOfKept(txns, Without(k), k');
    }
    GatheredSame(txns, rest, Keys(rest), t);
  }

  /** A group that cannot be replayed removes only itself: dropping its transactions changes
      nothing but its own entry in the incomplete list. */
  lemma FailingGroupRemovesOnlyItself(txns: seq<Entry>, k: Key, t: Ticker)
    requires k in Keys(txns) && Built(Group(txns, k)).Err?
    ensures var without := TallyOf(MergedLedger(Kept(txns, Without(k))), t);
      TallyOf(MergedLedger(txns), t)
        == without.(
             incomplete := without.incomplete + multiset{Incomplete(k.acct, k.ticker, Built(Group(txns, k)).error)})
  {
    var rest := Kept(txns, Without(k));
    MergeIsTheSumOfItsGroups(txns, t);
    MergeIsTheSumOfItsGroups(rest, t);
    KeysWithout(txns, k);
    GatheredPermutes(txns, Keys(txns), Keys(rest) + [k], t);
    GatheredSplit(txns, Keys(rest), [k], t);
    GatheredOne(txns, k, t);
    SameWithout(txns, k, t);
  }
}
