/** Which stored row gives a symbol its currency: `_tenant_currency_by_symbol` in
    api/services/analytics.py, on the position and transaction rows themselves. */
module LinkCurrency {
  import opened Wrappers
  import opened PortfolioLedger
  import opened PortfolioData
  import Sorting

  // ---------- The rows behind the links ----------

  function PositionLink(p: PositionRow): Link {
    Link(p.acct, p.symbol, p.currency)
  }

  function TxnLink(x: TxnRow): Link {
    Link(x.acct, x.symbol.GetOr(""), x.currency)
  }

  lemma {:induction false} PositionsAreLinks(positions: seq<PositionRow>, l: Link)
    ensures l in PositionLinks(positions) <==> exists p :: p in positions && l == PositionLink(p)
  {
    if |positions| > 0 {
      PositionsAreLinks(positions[1..], l);
      assert positions[0] in positions && forall p | p in positions[1..] :: p in positions;
      assert forall p | p in positions :: p == positions[0] || p in positions[1..];
    }
  }

  lemma {:induction false} TxnsAreLinks(txns: seq<TxnRow>, l: Link)
    ensures l in TxnLinks(txns) <==> exists x :: x in txns && x.symbol.Some? && l == TxnLink(x)
  {
    if |txns| > 0 {
      TxnsAreLinks(txns[1..], l);
      assert txns[0] in txns && forall x | x in txns[1..] :: x in txns;
      assert forall x | x in txns :: x == txns[0] || x in txns[1..];
    }
  }

  // ---------- The first row of a symbol ----------

  lemma {:induction false} KnownStays(known: map<string, string>, rows: seq<Link>, t: string)
    requires t in known
    ensures t in SetDefaults(known, rows) && SetDefaults(known, rows)[t] == known[t]
    decreases |rows|
  {
    if |rows| > 0 {
      var l := rows[0];
      KnownStays(if l.symbol in known then known else known[l.symbol := OrUsd(l.currency)], rows[1..], t);
    }
  }

  lemma {:induction false} FirstRowDecides(known: map<string, string>, rows: seq<Link>, t: string) returns (i: nat)
    requires t !in known
    ensures i <= |rows| && forall j | 0 <= j < i :: rows[j].symbol != t
    ensures t in SetDefaults(known, rows) <==> i < |rows|
    ensures i < |rows| ==>
      rows[i].symbol == t
      && SetDefaults(known, rows)[t] == if rows[i].currency == "" then "USD" else rows[i].currency
    decreases |rows|
  {
    if |rows| == 0 {
      i := 0;
    } else {
      var l := rows[0];
      var next := if l.symbol in known then known else known[l.symbol := OrUsd(l.currency)];
      if l.symbol == t {
        i := 0;
        KnownStays(next, rows[1..], t);
      } else {
        i := FirstRowDecides(next, rows[1..], t);
        i := i + 1;
      }
    }
  }

  predicate Linking(links: seq<Link>, accts: set<Acct>, t: string, l: Link) {
    l in links && l.symbol == t && l.acct in accts
  }

  /** `l` comes before every other link of its symbol in these accounts, and `currency` is its own. */
  ghost predicate Decides(
    links: seq<Link>, accts: set<Acct>, le: (Link, Link) -> bool, t: string, l: Link, currency: string)
  {
    && Linking(links, accts, t, l)
    && (forall other | Linking(links, accts, t, other) :: le(l, other))
    && currency == if l.currency == "" then "USD" else l.currency
  }

  lemma QueryMembers(links: seq<Link>, symbols: set<string>, accts: set<Acct>, le: (Link, Link) -> bool, l: Link)
    ensures l in Query(links, symbols, accts, le) <==> l in links && l.symbol in symbols && l.acct in accts
  {
    var asked := Sorting.Filter(links, Asked(symbols, accts));
    Sorting.SortPermutes(asked, le);
    Sorting.FilterMembers(links, Asked(symbols, accts), l);
    assert l in asked <==> l in multiset(asked);
    assert l in Query(links, symbols, accts, le) <==> l in multiset(Query(links, symbols, accts, le));
  }

  lemma FirstLinkDecides(
    links: seq<Link>, symbols: set<string>, accts: set<Acct>, le: (Link, Link) -> bool, known: map<string, string>,
    t: string)
    requires Sorting.TotalPreorder(le) && t !in known
    ensures var found := SetDefaults(known, Query(links, symbols, accts, le));
      && (t in found <==> t in symbols && exists l :: Linking(links, accts, t, l))
      && (t in found ==> exists l :: Decides(links, accts, le, t, l, found[t]))
  {
    var rows := Query(links, symbols, accts, le);
    var i := FirstRowDecides(known, rows, t);
    forall l ensures l in rows <==> l in links && l.symbol in symbols && l.acct in accts {
      QueryMembers(links, symbols, accts, le, l);
    }
    if i < |rows| {
      assert rows[i] in rows;
      assert Linking(links, accts, t, rows[i]);
      Sorting.SortSorts(Sorting.Filter(links, Asked(symbols, accts)), le);
      forall other | Linking(links, accts, t, other) ensures le(rows[i], other) {
        assert other in rows;
        var j :| 0 <= j < |rows| && rows[j] == other;
        assert i <= j;
      }
      assert Decides(links, accts, le, t, rows[i], SetDefaults(known, rows)[t]);
    }
  }

  // ---------- Positions before transactions ----------

  predicate Held(db: Db, accts: set<Acct>, t: string, p: PositionRow) {
    p in db.positions && p.symbol == t && p.acct in accts
  }

  predicate Traded(db: Db, accts: set<Acct>, t: string, x: TxnRow) {
    x in db.txns && x.symbol == Some(t) && x.acct in accts
  }

  ghost predicate FromPosition(
    db: Db, accts: set<Acct>, le: (Link, Link) -> bool, t: string, p: PositionRow, currency: string)
  {
    && Held(db, accts, t, p)
    && (forall other | Held(db, accts, t, other) :: le(PositionLink(p), PositionLink(other)))
    && currency == if p.currency == "" then "USD" else p.currency
  }

  ghost predicate FromTransaction(
    db: Db, accts: set<Acct>, le: (Link, Link) -> bool, t: string, x: TxnRow, currency: string)
  {
    && Traded(db, accts, t, x)
    && (forall other | Traded(db, accts, t, other) :: le(TxnLink(x), TxnLink(other)))
    && currency == if x.currency == "" then "USD" else x.currency
  }

  lemma HeldAreLinks(db: Db, accts: set<Acct>, t: string)
    ensures (exists l :: Linking(PositionLinks(db.positions), accts, t, l)) <==> exists p :: Held(db, accts, t, p)
    ensures forall p | Held(db, accts, t, p) :: Linking(PositionLinks(db.positions), accts, t, PositionLink(p))
  {
    forall p | Held(db, accts, t, p) ensures Linking(PositionLinks(db.positions), accts, t, PositionLink(p)) {
      PositionsAreLinks(db.positions, PositionLink(p));
    }
    if l :| Linking(PositionLinks(db.positions), accts, t, l) {
      PositionsAreLinks(db.positions, l);
      var p :| p in db.positions && l == PositionLink(p);
      assert Held(db, accts, t, p);
    }
  }

  lemma TradedAreLinks(db: Db, accts: set<Acct>, t: string)
    ensures (exists l :: Linking(TxnLinks(db.txns), accts, t, l)) <==> exists x :: Traded(db, accts, t, x)
    ensures forall x | Traded(db, accts, t, x) :: Linking(TxnLinks(db.txns), accts, t, TxnLink(x))
  {
    forall x | Traded(db, accts, t, x) ensures Linking(TxnLinks(db.txns), accts, t, TxnLink(x)) {
      TxnsAreLinks(db.txns, TxnLink(x));
    }
    if l :| Linking(TxnLinks(db.txns), accts, t, l) {
      TxnsAreLinks(db.txns, l);
      var x :| x in db.txns && x.symbol.Some? && l == TxnLink(x);
      assert Traded(db, accts, t, x);
    }
  }

  /** A symbol asked for and held in these accounts takes the currency of its first position. */
  lemma PositionGivesCurrency(
    db: Db, symbols: set<string>, accts: set<Acct>, le: (Link, Link) -> bool, t: string, q: PositionRow)
    requires Sorting.TotalPreorder(le) && t in symbols && Held(db, accts, t, q)
    ensures t in TenantCurrency(db, symbols, accts, le)
    ensures exists p :: FromPosition(db, accts, le, t, p, TenantCurrency(db, symbols, accts, le)[t])
  {
    var links := PositionLinks(db.positions);
    var rows := Query(links, symbols, accts, le);
    HeldAreLinks(db, accts, t);
    FirstLinkDecides(links, symbols, accts, le, map[], t);
    var l :| Decides(links, accts, le, t, l, SetDefaults(map[], rows)[t]);
    PositionsAreLinks(db.positions, l);
    var p :| p in db.positions && l == PositionLink(p);
    KnownStays(SetDefaults(map[], rows), Query(TxnLinks(db.txns), symbols, accts, le), t);
    assert FromPosition(db, accts, le, t, p, TenantCurrency(db, symbols, accts, le)[t]);
  }

  /** One that is not held takes the currency of its first transaction, and one that was never traded
      either has none. */
  lemma TransactionGivesCurrency(db: Db, symbols: set<string>, accts: set<Acct>, le: (Link, Link) -> bool, t: string)
    requires Sorting.TotalPreorder(le) && t in symbols && forall p :: !Held(db, accts, t, p)
    ensures t in TenantCurrency(db, symbols, accts, le) <==> exists x :: Traded(db, accts, t, x)
    ensures t in TenantCurrency(db, symbols, accts, le) ==>
      exists x :: FromTransaction(db, accts, le, t, x, TenantCurrency(db, symbols, accts, le)[t])
  {
    var links := TxnLinks(db.txns);
    var known := SetDefaults(map[], Query(PositionLinks(db.positions), symbols, accts, le));
    HeldAreLinks(db, accts, t);
    TradedAreLinks(db, accts, t);
    FirstLinkDecides(PositionLinks(db.positions), symbols, accts, le, map[], t);
    assert t !in known by {
      assert forall l :: !Linking(PositionLinks(db.positions), accts, t, l);
    }
    FirstLinkDecides(links, symbols, accts, le, known, t);
    if t in TenantCurrency(db, symbols, accts, le) {
      var l :| Decides(links, accts, le, t, l, SetDefaults(known, Query(links, symbols, accts, le))[t]);
      TxnsAreLinks(db.txns, l);
      var x :| x in db.txns && x.symbol.Some? && l == TxnLink(x);
      assert FromTransaction(db, accts, le, t, x, TenantCurrency(db, symbols, accts, le)[t]);
    }
  }

  /** Nothing is answered that was not asked for. */
  lemma OnlyAskedSymbols(db: Db, symbols: set<string>, accts: set<Acct>, le: (Link, Link) -> bool, t: string)
    requires Sorting.TotalPreorder(le) && t !in symbols
    ensures t !in TenantCurrency(db, symbols, accts, le)
  {
    FirstLinkDecides(PositionLinks(db.positions), symbols, accts, le, map[], t);
    FirstLinkDecides(TxnLinks(db.txns), symbols, accts, le,
                     SetDefaults(map[], Query(PositionLinks(db.positions), symbols, accts, le)), t);
  }
}
