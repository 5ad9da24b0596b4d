/** Realized lots from two disjoint sources, and their taxable / tax-advantaged split:
    `_realized` and the split in `summary`, api/services/analytics.py. */
module Realized {
  import opened Wrappers
  import opened FifoLedger
  import opened PortfolioLedger
  import opened PortfolioData
  import opened HoldingsReaders
  import Sorting

  datatype StoredLot = StoredLot(acct: Acct, currency: string, gain: RealizedGain)

  /** What the reader needs beside the portfolio's rows: broker-stored lots, the global security
      master's currency by symbol, the base currency, and exchange rates as of a day. */
  datatype Context = Context(
    stored: seq<StoredLot>, master: map<string, string>, base: string, rates: map<(string, int), real>, le: Order)

  /** A lot in its own currency; `rate` converts it to base at the close date, when known. */
  datatype RealizedLot = RealizedLot(gain: RealizedGain, currency: string, rate: Option<real>)

  /** A gain with its own currency, or none yet. */
  datatype Pending = Pending(currency: Option<string>, gain: RealizedGain)

  // ---------- The two sources ----------

  function StoredIn(stored: seq<StoredLot>, accts: set<Acct>): seq<StoredLot> {
    if |stored| == 0 then []
    else
      var most, last := StoredIn(stored[..|stored| - 1], accts), stored[|stored| - 1];
      if last.acct in accts then most + [last] else most
  }

  function Authoritative(ctx: Context, accts: set<Acct>): set<Acct> {
    set l | l in StoredIn(ctx.stored, accts) :: l.acct
  }

  /** Accounts replayed from transactions: those in scope without stored lots. */
  function ReplayAccounts(ctx: Context, db: Db, pid: int, scope: Scope): set<Acct> {
    var accts := ScopedAccounts(db, pid, scope);
    accts - Authoritative(ctx, accts)
  }

  function ReplayedGains(ctx: Context, db: Db, pid: int, scope: Scope): seq<RealizedGain> {
    MergedLedger(Entries(db, pid, ReplayAccounts(ctx, db, pid, scope))).books.realized
  }

  function AsStored(): StoredLot -> Pending {
    (l: StoredLot) => Pending(Some(OrUsd(l.currency)), l.gain)
  }

  function AsReplayed(): RealizedGain -> Pending {
    (g: RealizedGain) => Pending(None, g)
  }

  function FromStored(stored: seq<StoredLot>): seq<Pending> {
    Sorting.Map(AsStored(), stored)
  }

  function FromReplay(gains: seq<RealizedGain>): seq<Pending> {
    Sorting.Map(AsReplayed(), gains)
  }

  function Merge(ctx: Context, db: Db, pid: int, scope: Scope): seq<Pending> {
    FromStored(StoredIn(ctx.stored, ScopedAccounts(db, pid, scope))) + FromReplay(ReplayedGains(ctx, db, pid, scope))
  }

  // ---------- Currency and conversion ----------

  /** A replayed lot's currency: the accounts' own links, then the global master, then base. */
  function Resolved(ctx: Context, db: Db, accts: set<Acct>, t: Ticker): string {
    var own := TenantCurrency(db, {t}, accts, ctx.le);
    if t in own then own[t] else if t in ctx.master then ctx.master[t] else ctx.base
  }

  function Convert(ctx: Context, db: Db, accts: set<Acct>): Pending -> RealizedLot {
    (p: Pending) =>
      var currency := p.currency.GetOr(Resolved(ctx, db, accts, p.gain.ticker));
      var when := (currency, p.gain.closeDate);
      RealizedLot(p.gain, currency, if when in ctx.rates then Some(ctx.rates[when]) else None)
  }

  function ByClose(): (Pending, Pending) -> bool {
    (a: Pending, b: Pending) => a.gain.closeDate <= b.gain.closeDate
  }

  function RealizedLots(ctx: Context, db: Db, pid: int, scope: Scope): seq<RealizedLot> {
    Sorting.Map(Convert(ctx, db, ReplayAccounts(ctx, db, pid, scope)),
                Sorting.Sort(Merge(ctx, db, pid, scope), ByClose()))
  }

  // ---------- The loops ----------

  method LedgerCurrency(ctx: Context, db: Db, symbols: set<string>, accts: set<Acct>) returns (out: map<string, string>)
    requires Sorting.TotalPreorder(ctx.le)
    ensures forall t | t in symbols :: (if t in out then out[t] else ctx.base) == Resolved(ctx, db, accts, t)
  {
    var own := TenantCurrencyBySymbol(db, symbols, accts, ctx.le);
    out := own + map t | t in symbols && t !in own && t in ctx.master :: ctx.master[t];
    forall t | t in symbols ensures (if t in out then out[t] else ctx.base) == Resolved(ctx, db, accts, t) {
      CurrencyOfOneSymbol(db, symbols, accts, t, ctx.le);
    }
  }

  method MergeSources(ctx: Context, db: Db, pid: int, scope: Scope) returns (merged: seq<Pending>, replayIds: set<Acct>)
    ensures merged == Merge(ctx, db, pid, scope) && replayIds == ReplayAccounts(ctx, db, pid, scope)
  {
    var accts := ScopedAccounts(db, pid, scope);
    var stored := StoredIn(ctx.stored, accts);
    replayIds := accts - set l | l in stored :: l.acct;
    merged := FromStored(stored);
    if replayIds != {} {
      var ledger := BuildPortfolioLedger(Entries(db, pid, replayIds));
      merged := merged + FromReplay(ledger.books.realized);
    } else {
      NoAccountsNoEntries(db, pid, replayIds);
      NothingMerged();
      assert FromReplay([]) == [] && merged + [] == merged;
    }
  }

  method ConvertAll(ctx: Context, db: Db, accts: set<Acct>, ordered: seq<Pending>, known: map<string, string>)
    returns (out: seq<RealizedLot>)
    requires forall p | p in ordered && p.currency.None? ::
      (if p.gain.ticker in known then known[p.gain.ticker] else ctx.base) == Resolved(ctx, db, accts, p.gain.ticker)
    ensures out == Sorting.Map(Convert(ctx, db, accts), ordered)
  {
    out := [];
    for i := 0 to |ordered|
      invariant |out| == i && forall k | 0 <= k < i :: out[k] == Convert(ctx, db, accts)(ordered[k])
    {
      var p := ordered[i];
      assert p in ordered;
      var currency := if p.currency.Some? then p.currency.value
          else if p.gain.ticker in known then known[p.gain.ticker] else ctx.base;
      var when := (currency, p.gain.closeDate);
      out := out + [RealizedLot(p.gain, currency, if when in ctx.rates then Some(ctx.rates[when]) else None)];
    }
  }

  method ReadRealized(ctx: Context, db: Db, pid: int, scope: Scope) returns (out: seq<RealizedLot>)
    requires Sorting.TotalPreorder(ctx.le)
    ensures out == RealizedLots(ctx, db, pid, scope)
  {
    var merged, replayIds := MergeSources(ctx, db, pid, scope);
    var symbols := set p | p in merged && p.currency.None? :: p.gain.ticker;
    var known := LedgerCurrency(ctx, db, symbols, replayIds);
    var ordered := Sorting.Sort(merged, ByClose());
    Sorting.SortPermutes(merged, ByClose());
    forall p | p in ordered && p.currency.None? ensures p.gain.ticker in symbols {
      assert p in multiset(ordered) && p in multiset(merged);
    }
    out := ConvertAll(ctx, db, replayIds, ordered, known);
  }

  /** The two scoped reads of `summary`, taxable first. */
  method ReadSplit(ctx: Context, db: Db, pid: int, scope: Scope, taxable: set<Acct>) returns (closed: seq<RealizedLot>)
    requires Sorting.TotalPreorder(ctx.le)
    ensures closed == TaxSplit(ctx, db, pid, scope, taxable)
  {
    var scopeIds := ScopedAccounts(db, pid, scope);
    var taxableIds := taxable * scopeIds;
    var taxableLots := ReadRealized(ctx, db, pid, Among(taxableIds));
    var sheltered := ReadRealized(ctx, db, pid, Among(scopeIds - taxableIds));
    closed := taxableLots + sheltered;
  }

  function TaxSplit(ctx: Context, db: Db, pid: int, scope: Scope, taxable: set<Acct>): seq<RealizedLot> {
    var scopeIds := ScopedAccounts(db, pid, scope);
    var taxableIds := taxable * scopeIds;
    RealizedLots(ctx, db, pid, Among(taxableIds)) + RealizedLots(ctx, db, pid, Among(scopeIds - taxableIds))
  }
}
