/** Reading holdings for one scope, and for many accounts with shared queries: `_holdings` and
    `_holdings_by_account` in api/services/analytics.py. The batched reader is proved to return,
    for every account, exactly what the simple reader returns for it alone. */
module HoldingsReaders {
  import opened Wrappers
  import opened FifoLedger
  import opened PortfolioLedger
  import opened PortfolioData
  import opened Holdings
  import Sorting

  type Order = (Link, Link) -> bool

  // ---------- The simple reader ----------

  function LedgerAccounts(db: Db, pid: int, scope: Scope): set<Acct> {
    ScopedAccounts(db, pid, scope) - SnapshotSourced(db, pid)
  }

  function LedgerBooks(db: Db, pid: int, scope: Scope): Books {
    MergedLedger(Entries(db, pid, LedgerAccounts(db, pid, scope))).books
  }

  function HoldingsOf(db: Db, pid: int, scope: Scope, le: Order): Rows {
    var books, rows := LedgerBooks(db, pid, scope), PositionRows(db, pid, scope);
    Assembled(books, rows, TenantCurrency(db, Unpriced(books, rows), LedgerAccounts(db, pid, scope), le))
  }

  method ReadHoldings(db: Db, pid: int, scope: Scope, le: Order) returns (out: seq<Holding>)
    ensures out == ListOf(HoldingsOf(db, pid, scope, le))
  {
    var ledgerIds := ScopedAccounts(db, pid, scope) - SnapshotSourced(db, pid);
    var ledger := BuildPortfolioLedger(Entries(db, pid, ledgerIds));
    var rows := PositionRows(db, pid, scope);
    var known := TenantCurrencyBySymbol(db, Unpriced(ledger.books, rows), ledgerIds, le);
    out := AssembleHoldings(ledger.books, rows, known);
  }

  // ---------- Splitting shared rows by account ----------

  lemma RowsOfLast(most: seq<PositionRow>, last: PositionRow, mine: set<Acct>, scope: Scope)
    ensures RowsOf(most + [last], mine, scope)
         == if last.acct in mine && InScope(scope, last.acct) then RowsOf(most, mine, scope) + [last]
            else RowsOf(most, mine, scope)
  {
    assert (most + [last])[..|most|] == most;
  }

  lemma {:induction false} RowsNarrow(positions: seq<PositionRow>, mine: set<Acct>, accts: set<Acct>, a: Acct)
    requires a in accts
    ensures RowsOf(RowsOf(positions, mine, Among(accts)), mine, One(a)) == RowsOf(positions, mine, One(a))
    decreases |positions|
  {
    if |positions| > 0 {
      var most, last := positions[..|positions| - 1], positions[|positions| - 1];
      assert positions == most + [last];
      RowsNarrow(most, mine, accts, a);
      RowsOfLast(most, last, mine, Among(accts));
      RowsOfLast(most, last, mine, One(a));
      RowsOfLast(RowsOf(most, mine, Among(accts)), last, mine, One(a));
    }
  }

  lemma {:induction false} RowsHaveOwners(positions: seq<PositionRow>, mine: set<Acct>, scope: Scope, row: PositionRow)
    ensures row in RowsOf(positions, mine, scope) <==> row in positions && row.acct in mine && InScope(scope, row.acct)
    decreases |positions|
  {
    if |positions| > 0 {
      var most, last := positions[..|positions| - 1], positions[|positions| - 1];
      assert positions == most + [last];
      RowsHaveOwners(most, mine, scope, row);
    }
  }

  method SplitEntries(entries: seq<Entry>, accts: set<Acct>) returns (perAcct: map<Acct, seq<Entry>>)
    requires forall e | e in entries :: e.acct in accts
    ensures perAcct.Keys == accts && forall a | a in accts :: perAcct[a] == Kept(entries, In({a}))
  {
    perAcct := map a | a in accts :: [];
    for i := 0 to |entries|
      invariant perAcct.Keys == accts && forall a | a in accts :: perAcct[a] == Kept(entries[..i], In({a}))
    {
      assert entries[..i + 1][..i] == entries[..i] && entries[i] in entries;
      perAcct := perAcct[entries[i].acct := perAcct[entries[i].acct] + [entries[i]]];
    }
    assert entries[..|entries|] == entries;
  }

  method SplitRows(rows: seq<PositionRow>, mine: set<Acct>, accts: set<Acct>)
    returns (perAcct: map<Acct, seq<PositionRow>>)
    requires forall r | r in rows :: r.acct in mine && r.acct in accts
    ensures perAcct.Keys == accts && forall a | a in accts :: perAcct[a] == RowsOf(rows, mine, One(a))
  {
    perAcct := map a | a in accts :: [];
    for i := 0 to |rows|
      invariant perAcct.Keys == accts && forall a | a in accts :: perAcct[a] == RowsOf(rows[..i], mine, One(a))
    {
      assert rows[..i + 1][..i] == rows[..i] && rows[i] in rows;
      perAcct := perAcct[rows[i].acct := perAcct[rows[i].acct] + [rows[i]]];
    }
    assert rows[..|rows|] == rows;
  }

  // ---------- Currency per account ----------

  function OfAccount(a: Acct): Link -> bool {
    (l: Link) => l.acct == a
  }

  function OfSymbol(t: string): Link -> bool {
    (l: Link) => l.symbol == t
  }

  function Known(perAcct: map<Acct, map<string, string>>, a: Acct): map<string, string> {
    if a in perAcct then perAcct[a] else map[]
  }

  lemma {:induction false} SetDefaultsLast(known: map<string, string>, rows: seq<Link>, last: Link)
    ensures var before := SetDefaults(known, rows);
      SetDefaults(known, rows + [last])
      == if last.symbol in before then before else before[last.symbol := OrUsd(last.currency)]
    decreases |rows|
  {
    if |rows| == 0 {
      assert rows + [last] == [last];
      assert [last][1..] == [];
    } else {
      assert (rows + [last])[1..] == rows[1..] + [last];
      var next := if rows[0].symbol in known then known else known[rows[0].symbol := OrUsd(rows[0].currency)];
      SetDefaultsLast(next, rows[1..], last);
    }
  }

  lemma {:induction false} FilterLast(rows: seq<Link>, last: Link, keep: Link -> bool)
    ensures Sorting.Filter(rows + [last], keep)
         == if keep(last) then Sorting.Filter(rows, keep) + [last] else Sorting.Filter(rows, keep)
    decreases |rows|
  {
    if |rows| == 0 {
      assert rows + [last] == [last];
      assert [last][1..] == [];
    } else {
      assert (rows + [last])[1..] == rows[1..] + [last];
      FilterLast(rows[1..], last, keep);
    }
  }

  /** The shared loop over rows of many accounts does, for each account, what a loop over that
      account's own rows does. */
  method FillByAccount(start: map<Acct, map<string, string>>, rows: seq<Link>)
    returns (perAcct: map<Acct, map<string, string>>)
    ensures forall a :: Known(perAcct, a) == SetDefaults(Known(start, a), Sorting.Filter(rows, OfAccount(a)))
  {
    perAcct := start;
    assert rows[..0] == [];
    for i := 0 to |rows|
      invariant forall a :: Known(perAcct, a) == SetDefaults(Known(start, a), Sorting.Filter(rows[..i], OfAccount(a)))
    {
      var l := rows[i];
      assert rows[..i + 1] == rows[..i] + [l];
      forall a
        ensures a != l.acct ==>
          Sorting.Filter(rows[..i + 1], OfAccount(a)) == Sorting.Filter(rows[..i], OfAccount(a))
      {
        FilterLast(rows[..i], l, OfAccount(a));
      }
      FilterLast(rows[..i], l, OfAccount(l.acct));
      SetDefaultsLast(Known(start, l.acct), Sorting.Filter(rows[..i], OfAccount(l.acct)), l);
      if l.symbol !in Known(perAcct, l.acct) {
        perAcct := perAcct[l.acct := Known(perAcct, l.acct)[l.symbol := OrUsd(l.currency)]];
      }
    }
    assert rows[..|rows|] == rows;
  }

  lemma {:induction false} FilterTwice(links: seq<Link>, first: Link -> bool, second: Link -> bool, both: Link -> bool)
    requires forall l :: both(l) <==> first(l) && second(l)
    ensures Sorting.Filter(Sorting.Filter(links, first), second) == Sorting.Filter(links, both)
    decreases |links|
  {
    if |links| > 0 {
      FilterTwice(links[1..], first, second, both);
      if first(links[0]) {
        Sorting.FilterCons(links[0], Sorting.Filter(links[1..], first), second);
      }
    }
  }

  /** One account's rows of a shared query are that account's own query. */
  lemma QueryOfAccount(links: seq<Link>, symbols: set<string>, accts: set<Acct>, a: Acct, le: Order)
    requires Sorting.TotalPreorder(le) && a in accts
    ensures Sorting.Filter(Query(links, symbols, accts, le), OfAccount(a)) == Query(links, symbols, {a}, le)
  {
    Sorting.FilterCommutesWithSort(Sorting.Filter(links, Asked(symbols, accts)), le, OfAccount(a));
    FilterTwice(links, Asked(symbols, accts), OfAccount(a), Asked(symbols, {a}));
  }

  lemma QueryOfSymbol(links: seq<Link>, symbols: set<string>, accts: set<Acct>, t: string, le: Order)
    requires Sorting.TotalPreorder(le) && t in symbols
    ensures Sorting.Filter(Query(links, symbols, accts, le), OfSymbol(t)) == Query(links, {t}, accts, le)
  {
    Sorting.FilterCommutesWithSort(Sorting.Filter(links, Asked(symbols, accts)), le, OfSymbol(t));
    FilterTwice(links, Asked(symbols, accts), OfSymbol(t), Asked({t}, accts));
  }

  lemma {:induction false} OnlyOwnRowsMatter(
    known: map<string, string>, known': map<string, string>, rows: seq<Link>, t: string)
    requires At(known, t) == At(known', t)
    ensures At(SetDefaults(known, rows), t) == At(SetDefaults(known', Sorting.Filter(rows, OfSymbol(t))), t)
    decreases |rows|
  {
    if |rows| > 0 {
      var l := rows[0];
      var next := if l.symbol in known then known else known[l.symbol := OrUsd(l.currency)];
      if l.symbol == t {
        var next' := if l.symbol in known' then known' else known'[l.symbol := OrUsd(l.currency)];
        OnlyOwnRowsMatter(next, next', rows[1..], t);
        var rest := Sorting.Filter(rows[1..], OfSymbol(t));
        assert ([l] + rest)[1..] == rest;
      } else {
        OnlyOwnRowsMatter(next, known', rows[1..], t);
      }
    }
  }

  /** Asking for more symbols does not change the answer for one of them. */
  lemma CurrencyOfOneSymbol(db: Db, symbols: set<string>, accts: set<Acct>, t: string, le: Order)
    requires Sorting.TotalPreorder(le) && t in symbols
    ensures At(TenantCurrency(db, symbols, accts, le), t) == At(TenantCurrency(db, {t}, accts, le), t)
  {
    var ps, ts := PositionLinks(db.positions), TxnLinks(db.txns);
    QueryOfSymbol(ps, symbols, accts, t, le);
    QueryOfSymbol(ts, symbols, accts, t, le);
    OnlyOwnRowsMatter(map[], map[], Query(ps, symbols, accts, le), t);
    OnlyOwnRowsMatter(SetDefaults(map[], Query(ps, symbols, accts, le)), SetDefaults(map[], Query(ps, {t}, accts, le)),
                      Query(ts, symbols, accts, le), t);
  }

  lemma SameCurrencySameRows(b: Books, rows: seq<PositionRow>, known: map<string, string>, known': map<string, string>)
    requires forall t | t in Unpriced(b, rows) :: At(known, t) == At(known', t)
    ensures Assembled(b, rows, known) == Assembled(b, rows, known')
  {
    forall t | t in HeldTickers(b, rows) ensures HoldingOf(b, rows, known, t) == HoldingOf(b, rows, known', t) {
      if t in Unpriced(b, rows) {
        assert At(known, t) == At(known', t);
      }
    }
  }

  method CurrenciesByAccount(db: Db, symbols: set<string>, accts: set<Acct>, le: Order)
    returns (perAcct: map<Acct, map<string, string>>)
    requires Sorting.TotalPreorder(le)
    ensures forall a | a in accts :: Known(perAcct, a) == TenantCurrency(db, symbols, {a}, le)
  {
    var ps, ts := PositionLinks(db.positions), TxnLinks(db.txns);
    perAcct := FillByAccount(map[], Query(ps, symbols, accts, le));
    perAcct := FillByAccount(perAcct, Query(ts, symbols, accts, le));
    forall a | a in accts ensures Known(perAcct, a) == TenantCurrency(db, symbols, {a}, le) {
      QueryOfAccount(ps, symbols, accts, a, le);
      QueryOfAccount(ts, symbols, accts, a, le);
    }
  }

  // ---------- The batched reader ----------

  lemma NothingMerged()
    ensures MergedLedger([]).books == EMPTY
  {
    assert Keys([]) == [] && Collected([], []) == Merged(EMPTY, []);
    assert Sorting.Sort(EMPTY.realized, ByCloseDate()) == [];
    assert (map t | t in EMPTY.openLots :: Sorting.Sort(EMPTY.openLots[t], ByOpenDate())) == map[];
  }

  lemma {:induction false} KeptNothing(txns: seq<Entry>)
    ensures Kept(txns, In({})) == []
    decreases |txns|
  {
    if |txns| > 0 {
      KeptNothing(txns[..|txns| - 1]);
    }
  }

  lemma NoAccountsNoEntries(db: Db, pid: int, accts: set<Acct>)
    requires PortfolioAccounts(db, pid) * accts == {}
    ensures Entries(db, pid, accts) == []
  {
    KeptNothing(AllEntries(db.txns));
  }

  /** The ledger the batched reader uses for account `a` is the simple reader's. */
  lemma SameLedger(db: Db, pid: int, a: Acct, books: Books)
    requires a in SnapshotSourced(db, pid) ==> books == EMPTY
    requires a !in SnapshotSourced(db, pid) ==> books == MergedLedger(Entries(db, pid, {a})).books
    ensures books == LedgerBooks(db, pid, One(a))
    ensures a !in PortfolioAccounts(db, pid) || a in SnapshotSourced(db, pid) ==> books == EMPTY
  {
    var ids := LedgerAccounts(db, pid, One(a));
    NothingMerged();
    if a in PortfolioAccounts(db, pid) && a !in SnapshotSourced(db, pid) {
      assert ids == {a};
    } else {
      assert ids == {};
      NoAccountsNoEntries(db, pid, ids);
      if a !in SnapshotSourced(db, pid) {
        assert PortfolioAccounts(db, pid) * {a} == {};
        NoAccountsNoEntries(db, pid, {a});
      }
    }
  }

  /** An account read from its ledger has no broker positions, and the other way round. */
  lemma OneSourcePerAccount(db: Db, pid: int, a: Acct)
    ensures LedgerBooks(db, pid, One(a)) == EMPTY || PositionRows(db, pid, One(a)) == []
    ensures a in SnapshotSourced(db, pid) ==> LedgerBooks(db, pid, One(a)) == EMPTY
    ensures a !in SnapshotSourced(db, pid) ==> PositionRows(db, pid, One(a)) == []
    ensures a !in PortfolioAccounts(db, pid) ==>
      PositionRows(db, pid, One(a)) == [] && LedgerBooks(db, pid, One(a)) == EMPTY
  {
    SameLedger(db, pid, a, if a in SnapshotSourced(db, pid) then EMPTY else MergedLedger(Entries(db, pid, {a})).books);
    var rows := PositionRows(db, pid, One(a));
    if rows != [] {
      RowsHaveOwners(db.positions, PortfolioAccounts(db, pid), One(a), rows[0]);
      assert rows[0] in db.positions && rows[0].acct == a;
    }
  }

  /** The batched reader's currencies for account `a` give the simple reader's rows. */
  lemma SameRowsForAccount(db: Db, pid: int, a: Acct, asked: set<string>, own: map<string, string>, le: Order)
    requires Sorting.TotalPreorder(le)
    requires a in SnapshotSourced(db, pid) ==> own == map[]
    requires a !in SnapshotSourced(db, pid) ==>
      own == TenantCurrency(db, asked, {a}, le) && LedgerBooks(db, pid, One(a)).openLots.Keys <= asked
    ensures Assembled(LedgerBooks(db, pid, One(a)), PositionRows(db, pid, One(a)), own)
         == HoldingsOf(db, pid, One(a), le)
  {
    var books, rows := LedgerBooks(db, pid, One(a)), PositionRows(db, pid, One(a));
    var ids := LedgerAccounts(db, pid, One(a));
    var needed := Unpriced(books, rows);
    var theirs := TenantCurrency(db, needed, ids, le);
    OneSourcePerAccount(db, pid, a);
    if a in SnapshotSourced(db, pid) {
      assert ids == {};
      NoAccountsNoCurrency(db, needed, le);
    } else if a in PortfolioAccounts(db, pid) {
      assert ids == {a} && needed <= asked;
      forall t | t in needed ensures At(own, t) == At(theirs, t) {
        CurrencyOfOneSymbol(db, asked, {a}, t, le);
        CurrencyOfOneSymbol(db, needed, {a}, t, le);
      }
    }
    SameCurrencySameRows(books, rows, own, theirs);
  }

  lemma {:induction false} NobodyAsked(links: seq<Link>, symbols: set<string>)
    ensures Sorting.Filter(links, Asked(symbols, {})) == []
    decreases |links|
  {
    if |links| > 0 {
      NobodyAsked(links[1..], symbols);
    }
  }

  lemma NoAccountsNoCurrency(db: Db, symbols: set<string>, le: Order)
    ensures TenantCurrency(db, symbols, {}, le) == map[]
  {
    NobodyAsked(PositionLinks(db.positions), symbols);
    NobodyAsked(TxnLinks(db.txns), symbols);
  }

  method LedgersByAccount(db: Db, pid: int, ledgerIds: set<Acct>) returns (ledgers: map<Acct, Books>)
    ensures ledgers.Keys == ledgerIds
    ensures forall a | a in ledgerIds :: ledgers[a] == MergedLedger(Entries(db, pid, {a})).books
  {
    var entries := Entries(db, pid, ledgerIds);
    forall e | e in entries ensures e.acct in ledgerIds {
      KeptMembers(AllEntries(db.txns), In(PortfolioAccounts(db, pid) * ledgerIds), e);
    }
    var perAcct := SplitEntries(entries, ledgerIds);
    ledgers := map[];
    var rest := ledgerIds;
    while rest != {}
      invariant rest <= ledgerIds && ledgers.Keys == ledgerIds - rest
      invariant forall a | a in ledgers :: ledgers[a] == MergedLedger(Entries(db, pid, {a})).books
    {
      ghost var someone := AnyOf(rest);
      var a :| a in rest;
      var merged := BuildPortfolioLedger(perAcct[a]);
      EntriesNarrow(db, pid, ledgerIds, {a});
      assert ledgerIds * {a} == {a};
      ledgers := ledgers[a := merged.books];
      rest := rest - {a};
    }
  }

  method PositionsByAccount(db: Db, pid: int, accts: set<Acct>) returns (positions: map<Acct, seq<PositionRow>>)
    ensures positions.Keys == accts && forall a | a in accts :: positions[a] == PositionRows(db, pid, One(a))
  {
    var mine := PortfolioAccounts(db, pid);
    var rows := PositionRows(db, pid, Among(accts));
    forall r | r in rows ensures r.acct in mine && r.acct in accts {
      RowsHaveOwners(db.positions, mine, Among(accts), r);
    }
    positions := SplitRows(rows, mine, accts);
    forall a | a in accts ensures positions[a] == PositionRows(db, pid, One(a)) {
      RowsNarrow(db.positions, mine, accts, a);
    }
  }

  /** The tables shared between accounts; a snapshot-sourced account has no ledger. */
  datatype Tables = Tables(
    ledgers: map<Acct, Books>, positions: map<Acct, seq<PositionRow>>, known: map<Acct, map<string, string>>)
  {
    function Ledger(a: Acct): Books {
      if a in ledgers then ledgers[a] else EMPTY
    }

    function Positions(a: Acct): seq<PositionRow> {
      if a in positions then positions[a] else []
    }

    function Currencies(a: Acct): map<string, string> {
      if a in ledgers then Known(known, a) else map[]
    }

    ghost function List(a: Acct): seq<Holding> {
      ListOf(Assembled(Ledger(a), Positions(a), Currencies(a)))
    }
  }

  /** What the shared reads put in the tables for account `a`. */
  ghost predicate Reads(shared: Tables, db: Db, pid: int, a: Acct, le: Order, asked: set<string>) {
    && shared.Positions(a) == PositionRows(db, pid, One(a))
    && (a in shared.ledgers <==> a !in SnapshotSourced(db, pid))
    && (a in shared.ledgers ==>
         && shared.ledgers[a] == MergedLedger(Entries(db, pid, {a})).books
         && shared.ledgers[a].openLots.Keys <= asked
         && Known(shared.known, a) == TenantCurrency(db, asked, {a}, le))
  }

  /** The tables list for an account what the simple reader lists for it alone. */
  lemma TablesListOwn(shared: Tables, db: Db, pid: int, a: Acct, le: Order, asked: set<string>)
    requires Sorting.TotalPreorder(le) && Reads(shared, db, pid, a, le, asked)
    ensures shared.List(a) == ListOf(HoldingsOf(db, pid, One(a), le))
  {
    SameLedger(db, pid, a, shared.Ledger(a));
    SameRowsForAccount(db, pid, a, asked, shared.Currencies(a), le);
  }

  method AssembleEach(ids: seq<Acct>, shared: Tables) returns (out: map<Acct, seq<Holding>>)
    ensures forall a :: a in out <==> a in ids
    ensures forall a | a in ids :: out[a] == shared.List(a)
  {
    out := map[];
    for i := 0 to |ids|
      invariant forall a :: a in out <==> a in ids[..i]
      invariant forall a | a in out :: out[a] == shared.List(a)
    {
      var a := ids[i];
      var list := AssembleHoldings(shared.Ledger(a), shared.Positions(a), shared.Currencies(a));
      assert ids[..i + 1] == ids[..i] + [a];
      out := out[a := list];
    }
    assert ids[..|ids|] == ids;
  }

  /** For every account, the batched list is what the simple reader returns for it alone. */
  method ReadHoldingsByAccount(db: Db, pid: int, ids: seq<Acct>, le: Order) returns (out: map<Acct, seq<Holding>>)
    requires Sorting.TotalPreorder(le)
    ensures forall a :: a in out <==> a in ids
    ensures forall a | a in ids :: out[a] == ListOf(HoldingsOf(db, pid, One(a), le))
  {
    var inScope := set a | a in ids;
    var ledgerIds := inScope - SnapshotSourced(db, pid);
    var ledgers := LedgersByAccount(db, pid, ledgerIds);
    var positions := PositionsByAccount(db, pid, inScope);
    var tickers := set a, t | a in ledgers && t in ledgers[a].openLots :: t;
    var known := CurrenciesByAccount(db, tickers, ledgerIds, le);
    var shared := Tables(ledgers, positions, known);
    out := AssembleEach(ids, shared);
    forall a | a in ids ensures shared.List(a) == ListOf(HoldingsOf(db, pid, One(a), le)) {
      assert a in inScope;
      TablesListOwn(shared, db, pid, a, le, tickers);
    }
  }
}
