/** The tax split in base currency, decided on the stored rows: when the replayed accounts link
    each symbol in one currency, splitting a scope converts every lot as the whole scope does. */
module RealizedCurrencies {
  import opened Wrappers
  import opened FifoLedger
  import opened LedgerReplay
  import opened PortfolioLedger
  import opened PortfolioData
  import opened Realized
  import opened RealizedSplit
  import LinkCurrency
  import Sorting
  import Text

  // ---------- Every realized lot is about a transaction's ticker ----------

  ghost predicate AboutTickers(b: Books, known: set<Ticker>) {
    && (forall t, lot | lot in LotsOf(b, t) :: lot.ticker in known)
    && forall g | g in b.realized :: g.ticker in known
  }

  lemma ReliefIsAbout(lots: seq<Lot>, quantity: real, day: int, pps: real, known: set<Ticker>)
    requires forall lot | lot in lots :: lot.ticker in known
    ensures var r := Relief(lots, quantity, day, pps);
      (forall g | g in r.gains :: g.ticker in known) && forall lot | lot in r.left :: lot.ticker in known
  {
    var r := Relief(lots, quantity, day, pps);
    ReliefClosesInOrder(lots, quantity, day, pps);
    var k := ReliefLeavesSuffix(lots, quantity, day, pps);
    forall g | g in r.gains ensures g.ticker in known {
      var i :| 0 <= i < |r.gains| && r.gains[i] == g;
      assert Closes(lots[i], g, day) && lots[i] in lots;
    }
    forall lot | lot in r.left ensures lot.ticker in known {
      var i :| 0 <= i < |r.left| && r.left[i] == lot;
      assert lots[k + i] in lots;
    }
  }

  lemma {:induction false} ScaleIsAbout(lots: seq<Lot>, ratio: real, known: set<Ticker>)
    requires ratio > 0.0 && forall lot | lot in lots :: lot.ticker in known
    ensures forall lot | lot in Scale(lots, ratio) :: lot.ticker in known
    decreases |lots|
  {
    if |lots| > 0 {
      assert lots[0] in lots && forall lot | lot in lots[1..] :: lot in lots;
      ScaleIsAbout(lots[1..], ratio, known);
    }
  }

  lemma LeftIsAbout(b: Books, t: Ticker, left: seq<Lot>, known: set<Ticker>)
    requires AboutTickers(b, known) && forall lot | lot in left :: lot.ticker in known
    ensures AboutTickers(Left(b, t, left), known)
  {
    forall t', lot | lot in LotsOf(Left(b, t, left), t') ensures lot.ticker in known {
      assert lot in left || lot in LotsOf(b, t');
    }
  }

  lemma OpenedIsAbout(b: Books, x: Txn, cost: real, known: set<Ticker>)
    requires AboutTickers(b, known) && x.ticker in known
    ensures AboutTickers(Opened(b, x, cost), known)
  {
    forall t, lot | lot in LotsOf(Opened(b, x, cost), t) ensures lot.ticker in known {
      assert lot.ticker == x.ticker || lot in LotsOf(b, t);
    }
  }

  lemma CashIsNotAbout(b: Books, cash: real, known: set<Ticker>)
    ensures AboutTickers(b.(cash := cash), known) <==> AboutTickers(b, known)
  {
    assert forall t :: LotsOf(b.(cash := cash), t) == LotsOf(b, t);
  }

  lemma SoldIsAbout(b: Books, x: Txn, known: set<Ticker>)
    requires AboutTickers(b, known) && x.quantity > 0.0
    ensures AboutTickers(Sold(b, x), known)
  {
    var r := Relief(LotsOf(b, x.ticker), x.quantity, x.when, NetPrice(x));
    ReliefIsAbout(LotsOf(b, x.ticker), x.quantity, x.when, NetPrice(x), known);
    var left := Left(b, x.ticker, r.left);
    LeftIsAbout(b, x.ticker, r.left, known);
    assert forall t :: LotsOf(Sold(b, x), t) == LotsOf(left, t);
  }

  lemma StepIsAbout(b: Books, x: Txn, b': Books, known: set<Ticker>)
    requires Apply(b, x) == Ok(b') && AboutTickers(b, known) && x.ticker in known
    ensures AboutTickers(b', known)
  {
    if CashOnly(x.kind) {
      CashIsNotAbout(b, b'.cash, known);
    } else if x.quantity > 0.0 {
      if x.kind.Sell? {
        SoldIsAbout(b, x, known);
      } else if x.kind.TransferOut? {
        ReliefIsAbout(LotsOf(b, x.ticker), x.quantity, x.when, 0.0, known);
        LeftIsAbout(b, x.ticker, Relief(LotsOf(b, x.ticker), x.quantity, x.when, 0.0).left, known);
      } else if x.kind.Split? {
        ScaleIsAbout(LotsOf(b, x.ticker), x.quantity, known);
        LeftIsAbout(b, x.ticker, Scale(LotsOf(b, x.ticker), x.quantity), known);
      } else if x.kind.TransferIn? {
        OpenedIsAbout(b, x, TransferCost(x), known);
      } else {
        OpenedIsAbout(b, x, PurchaseCost(x), known);
        CashIsNotAbout(Opened(b, x, PurchaseCost(x)), b'.cash, known);
      }
    }
  }

  lemma {:induction false} ReplayIsAbout(b: Books, txns: seq<Txn>, b': Books, known: set<Ticker>)
    requires Replay(b, txns) == Ok(b') && AboutTickers(b, known)
    requires forall x | x in txns :: x.ticker in known
    ensures AboutTickers(b', known)
    decreases |txns|
  {
    if |txns| > 0 {
      assert txns[0] in txns && forall x | x in txns[1..] :: x in txns;
      StepIsAbout(b, txns[0], Apply(b, txns[0]).value, known);
      ReplayIsAbout(Apply(b, txns[0]).value, txns[1..], b', known);
    }
  }

  lemma {:induction false} GroupTickers(txns: seq<Entry>, k: Key, x: Txn)
    requires x in Group(txns, k)
    ensures x.ticker == k.ticker
    decreases |txns|
  {
    if x !in Group(txns[..|txns| - 1], k) {
      assert x == txns[|txns| - 1].txn;
    } else {
      GroupTickers(txns[..|txns| - 1], k, x);
    }
  }

  lemma GroupGains(txns: seq<Entry>, k: Key, g: RealizedGain)
    requires Built(Group(txns, k)).Ok? && g in Built(Group(txns, k)).value.realized
    ensures g.ticker == k.ticker
  {
    var ordered := Sorting.Sort(Group(txns, k), ByWhen());
    Sorting.SortPermutes(Group(txns, k), ByWhen());
    forall x | x in ordered ensures x.ticker in {k.ticker} {
      assert x in multiset(ordered);
      GroupTickers(txns, k, x);
    }
    ReplayIsAbout(EMPTY, ordered, Built(Group(txns, k)).value, {k.ticker});
  }

  lemma {:induction false} GatheredGains(txns: seq<Entry>, ks: seq<Key>, g: RealizedGain) returns (k: Key)
    requires g in Gathered(txns, ks, "").realized
    ensures k in ks && k.ticker == g.ticker
    decreases |ks|
  {
    var most, last := ks[..|ks| - 1], ks[|ks| - 1];
    if g in Gathered(txns, most, "").realized {
      k := GatheredGains(txns, most, g);
    } else {
      assert g in GroupTally(last, Group(txns, last), "").realized;
      GroupGains(txns, last, g);
      k := last;
    }
  }

  lemma {:induction false} EntryHasRow(txns: seq<TxnRow>, e: Entry) returns (row: TxnRow)
    requires e in AllEntries(txns)
    ensures row in txns && ToEntry(row) == e
    decreases |txns|
  {
    var most, last := txns[..|txns| - 1], txns[|txns| - 1];
    assert txns == most + [last];
    if e in AllEntries(most) {
      row := EntryHasRow(most, e);
    } else {
      row := last;
    }
  }

  /** A replayed gain's ticker is the upper-cased symbol of some transaction of those accounts. */
  lemma GainHasRow(db: Db, pid: int, accts: set<Acct>, g: RealizedGain) returns (row: TxnRow)
    requires g in MergedLedger(Entries(db, pid, accts)).books.realized
    ensures row in db.txns && row.acct in accts && g.ticker == Text.Upper(row.symbol.GetOr(""))
  {
    var txns := Entries(db, pid, accts);
    MergeIsTheSumOfItsGroups(txns, "");
    assert g in multiset(MergedLedger(txns).books.realized);
    var k := GatheredGains(txns, Keys(txns), g);
    KeysAreTheGroups(txns);
    GroupOwner(txns, k);
    var e :| e in txns && KeyOf(e) == k;
    KeptMembers(AllEntries(db.txns), In(PortfolioAccounts(db, pid) * accts), e);
    row := EntryHasRow(db.txns, e);
  }

  // ---------- Links ----------

  function Fallback(ctx: Context, t: Ticker): string {
    if t in ctx.master then ctx.master[t] else ctx.base
  }

  predicate Linked(db: Db, accts: set<Acct>, t: Ticker) {
    LinkedIn(PositionLinks(db.positions), accts, t) || LinkedIn(TxnLinks(db.txns), accts, t)
  }

  lemma UnlinkedFallsBack(ctx: Context, db: Db, accts: set<Acct>, t: Ticker)
    requires !Linked(db, accts, t)
    ensures Resolved(ctx, db, accts, t) == Fallback(ctx, t)
  {
    var ps, ts := PositionLinks(db.positions), TxnLinks(db.txns);
    forall l ensures l !in Query(ps, {t}, accts, ctx.le) && l !in Query(ts, {t}, accts, ctx.le) {
      LinkCurrency.QueryMembers(ps, {t}, accts, ctx.le, l);
      LinkCurrency.QueryMembers(ts, {t}, accts, ctx.le, l);
    }
    DefaultFromRows(map[], Query(ps, {t}, accts, ctx.le), t);
    DefaultFromRows(SetDefaults(map[], Query(ps, {t}, accts, ctx.le)), Query(ts, {t}, accts, ctx.le), t);
  }

  /** The accounts' links never give one ticker two currencies. */
  ghost predicate Agreed(db: Db, accts: set<Acct>, t: Ticker, currency: string) {
    OneCurrency(PositionLinks(db.positions), accts, t, currency) && OneCurrency(TxnLinks(db.txns), accts, t, currency)
  }

  /** Whether narrowing the accounts to a part leaves a ticker in its currency: the part links it,
      or nothing does, or the link agrees with the fallback. */
  predicate KeepsCurrency(ctx: Context, db: Db, part: set<Acct>, whole: set<Acct>, t: Ticker, currency: string) {
    Linked(db, part, t) || !Linked(db, whole, t) || currency == Fallback(ctx, t)
  }

  lemma KeptExactly(ctx: Context, db: Db, part: set<Acct>, whole: set<Acct>, t: Ticker, currency: string)
    requires part <= whole && Agreed(db, whole, t, currency)
    ensures Resolved(ctx, db, part, t) == Resolved(ctx, db, whole, t)
       <==> KeepsCurrency(ctx, db, part, whole, t, currency)
  {
    if Linked(db, whole, t) {
      OneCurrencyResolves(ctx, db, whole, t, currency);
    } else {
      UnlinkedFallsBack(ctx, db, whole, t);
    }
    if Linked(db, part, t) {
      OneCurrencyResolves(ctx, db, part, t, currency);
    } else {
      UnlinkedFallsBack(ctx, db, part, t);
    }
  }

  // ---------- The split ----------

  ghost predicate AllKeep(
    ctx: Context, db: Db, pid: int, scope: Scope, part: set<Acct>, currencies: Ticker -> string)
  {
    forall g | g in ReplayedGains(ctx, db, pid, Among(part)) ::
      KeepsCurrency(ctx, db, ReplayAccounts(ctx, db, pid, Among(part)), ReplayAccounts(ctx, db, pid, scope), g.ticker,
                    currencies(g.ticker))
  }

  lemma PartKeepsExactly(ctx: Context, db: Db, pid: int, scope: Scope, part: set<Acct>, currencies: Ticker -> string)
    requires ReplayAccounts(ctx, db, pid, Among(part)) <= ReplayAccounts(ctx, db, pid, scope)
    requires forall t :: Agreed(db, ReplayAccounts(ctx, db, pid, scope), t, currencies(t))
    ensures ResolvesAlike(ctx, db, pid, scope, part) <==> AllKeep(ctx, db, pid, scope, part, currencies)
  {
    var ids, all := ReplayAccounts(ctx, db, pid, Among(part)), ReplayAccounts(ctx, db, pid, scope);
    forall t ensures Resolved(ctx, db, ids, t) == Resolved(ctx, db, all, t)
                <==> KeepsCurrency(ctx, db, ids, all, t, currencies(t))
    {
      KeptExactly(ctx, db, ids, all, t, currencies(t));
    }
  }

  /** With one currency per ticker, the split unions to the whole scope in base currency exactly
      when each replayed ticker is linked in its own part, linked nowhere in the scope, or linked in
      the currency it would fall back to. */
  lemma OneCurrencyConservesBaseLotsExactly(
    ctx: Context, db: Db, pid: int, scope: Scope, taxable: set<Acct>, currencies: Ticker -> string)
    requires forall t :: Agreed(db, ReplayAccounts(ctx, db, pid, scope), t, currencies(t))
    ensures var scopeIds := ScopedAccounts(db, pid, scope);
      multiset(TaxSplit(ctx, db, pid, scope, taxable)) == multiset(RealizedLots(ctx, db, pid, scope))
      <==> AllKeep(ctx, db, pid, scope, taxable * scopeIds, currencies)
           && AllKeep(ctx, db, pid, scope, scopeIds - taxable * scopeIds, currencies)
  {
    var scopeIds := ScopedAccounts(db, pid, scope);
    TaxSplitDivides(ctx, db, pid, scope, taxable);
    TaxSplitConservesBaseLotsExactly(ctx, db, pid, scope, taxable);
    PartKeepsExactly(ctx, db, pid, scope, taxable * scopeIds, currencies);
    PartKeepsExactly(ctx, db, pid, scope, scopeIds - taxable * scopeIds, currencies);
  }

  // ---------- A check on the stored rows ----------

  /** Symbols are stored upper-case and non-empty. */
  predicate CleanSymbols(db: Db) {
    && (forall x | x in db.txns && x.symbol.Some? ::
          x.symbol.value != "" && Text.Upper(x.symbol.value) == x.symbol.value)
    && forall p | p in db.positions :: p.symbol != ""
  }

  lemma {:induction false} TxnIsLinked(txns: seq<TxnRow>, row: TxnRow)
    requires row in txns && row.symbol.Some?
    ensures Link(row.acct, row.symbol.value, row.currency) in TxnLinks(txns)
    decreases |txns|
  {
    if row != txns[0] {
      TxnIsLinked(txns[1..], row);
    }
  }

  lemma {:induction false} NoBlankLinks(positions: seq<PositionRow>, txns: seq<TxnRow>, l: Link)
    requires l in PositionLinks(positions) || l in TxnLinks(txns)
    requires forall p | p in positions :: p.symbol != ""
    requires forall x | x in txns && x.symbol.Some? :: x.symbol.value != ""
    ensures l.symbol != ""
    decreases |positions| + |txns|
  {
    if l in PositionLinks(positions) {
      assert positions[0] in positions;
      if l != Link(positions[0].acct, positions[0].symbol, positions[0].currency) {
        NoBlankLinks(positions[1..], [], l);
      }
    } else {
      assert txns[0] in txns;
      if l in TxnLinks(txns[1..]) {
        NoBlankLinks([], txns[1..], l);
      }
    }
  }

  lemma CleanGainKeeps(
    ctx: Context, db: Db, pid: int, part: set<Acct>, whole: set<Acct>, g: RealizedGain, currency: string)
    requires CleanSymbols(db) && g in MergedLedger(Entries(db, pid, part)).books.realized
    ensures KeepsCurrency(ctx, db, part, whole, g.ticker, currency)
  {
    var row := GainHasRow(db, pid, part, g);
    if row.symbol.Some? {
      TxnIsLinked(db.txns, row);
    } else {
      assert g.ticker == "";
      forall l | l in PositionLinks(db.positions) || l in TxnLinks(db.txns) ensures l.symbol != "" {
        NoBlankLinks(db.positions, db.txns, l);
      }
    }
  }

  /** On rows with clean symbols, one linked currency per symbol in the replayed accounts is enough:
      the taxable and tax-advantaged lots, base amounts included, union to the whole scope. */
  lemma OneCurrencyConservesBaseLots(
    ctx: Context, db: Db, pid: int, scope: Scope, taxable: set<Acct>, currencies: Ticker -> string)
    requires CleanSymbols(db)
    requires forall t :: Agreed(db, ReplayAccounts(ctx, db, pid, scope), t, currencies(t))
    ensures multiset(TaxSplit(ctx, db, pid, scope, taxable)) == multiset(RealizedLots(ctx, db, pid, scope))
  {
    var scopeIds := ScopedAccounts(db, pid, scope);
    OneCurrencyConservesBaseLotsExactly(ctx, db, pid, scope, taxable, currencies);
    EveryGainKeeps(ctx, db, pid, scope, taxable * scopeIds, currencies);
    EveryGainKeeps(ctx, db, pid, scope, scopeIds - taxable * scopeIds, currencies);
  }

  lemma EveryGainKeeps(ctx: Context, db: Db, pid: int, scope: Scope, part: set<Acct>, currencies: Ticker -> string)
    requires CleanSymbols(db)
    ensures AllKeep(ctx, db, pid, scope, part, currencies)
  {
    var ids, all := ReplayAccounts(ctx, db, pid, Among(part)), ReplayAccounts(ctx, db, pid, scope);
    forall g | g in ReplayedGains(ctx, db, pid, Among(part))
      ensures KeepsCurrency(ctx, db, ids, all, g.ticker, currencies(g.ticker))
    {
      CleanGainKeeps(ctx, db, pid, ids, all, g, currencies(g.ticker));
    }
  }
}
