/** The stored rows the portfolio readers query, and the queries they share:
    api/services/analytics.py. One tenant; each query is a filter over rows in stored order. */
module PortfolioData {
  import opened Arithmetic
  import opened Wrappers
  import opened FifoLedger
  import opened PortfolioLedger
  import Sorting
  import Text

  datatype Account = Account(id: Acct, portfolio: int, broker: string, cash: Option<real>)

  /** A stored transaction with the security it links to, if any. */
  datatype TxnRow = TxnRow(acct: Acct, symbol: Option<string>, currency: string, raw: Txn)

  /** A broker-reported position with its security's symbol and currency ("" when blank). */
  datatype PositionRow = PositionRow(
    acct: Acct, symbol: string, currency: string, quantity: real, avgCost: real, mvLocal: Option<real>,
    asOf: Option<int>)

  datatype Db = Db(accounts: seq<Account>, txns: seq<TxnRow>, positions: seq<PositionRow>)

  datatype Scope = Whole | One(acct: Acct) | Among(accts: set<Acct>)

  const SNAPSHOT_SOURCES: set<string> := {"ibkr_flex", "snaptrade", "reference"}

  // ---------- Accounts ----------

  function PortfolioAccounts(db: Db, pid: int): set<Acct> {
    set a | a in db.accounts && a.portfolio == pid :: a.id
  }

  function ScopedAccounts(db: Db, pid: int, scope: Scope): set<Acct> {
    match scope
    case Whole => PortfolioAccounts(db, pid)
    case One(a) => PortfolioAccounts(db, pid) * {a}
    case Among(accts) => PortfolioAccounts(db, pid) * accts
  }

  /** Accounts whose holdings come from the broker snapshot: by broker, or by having positions. */
  function SnapshotSourced(db: Db, pid: int): set<Acct> {
    var mine := PortfolioAccounts(db, pid);
    (set a | a in db.accounts && a.portfolio == pid && a.broker in SNAPSHOT_SOURCES :: a.id)
    + (set p | p in db.positions && p.acct in mine :: p.acct)
  }

  /** An account is read from the broker's snapshot exactly when it is the portfolio's own and its broker
      is a snapshot source, or it holds a position row. */
  lemma SnapshotSourcedExactly(db: Db, pid: int, a: Acct)
    ensures a in SnapshotSourced(db, pid)
       <==> exists row :: row in db.accounts && row.id == a && row.portfolio == pid
              && (row.broker == "ibkr_flex" || row.broker == "snaptrade" || row.broker == "reference"
                  || exists p :: p in db.positions && p.acct == a)
  {
  }

  // ---------- Transactions ----------

  predicate Trades(kind: TxnType) {
    kind.Buy? || kind.Reinvestment? || kind.Sell?
  }

  /** Face value to the per-100-par unit, when quantity times price is about 100 times the cash. */
  function NormalizeBondQuantity(kind: TxnType, quantity: real, price: real, amount: real): real {
    if Trades(kind) && quantity > 0.0 && price > 0.0 && amount > 0.0 then
      var ratio := (quantity * price) / (100.0 * amount);
      if 0.8 <= ratio <= 1.25 then quantity / 100.0 else quantity
    else quantity
  }

  /** Whether quantity times price is within a quarter of 100 times the cash. */
  lemma BandExactly(quantity: real, price: real, amount: real)
    requires amount > 0.0
    ensures 0.8 <= (quantity * price) / (100.0 * amount) <= 1.25
       <==> 80.0 * amount <= quantity * price <= 125.0 * amount
  {
    QuotientBetween(quantity * price, 100.0 * amount, 0.8, 1.25);
  }

  lemma Hundredth(quantity: real, price: real)
    ensures (quantity / 100.0) * price == (quantity * price) / 100.0
  {
  }

  /** Out of the band again: the product shrank from near 100 times the cash to near the cash. */
  lemma HundredthLeavesBand(product: real, amount: real)
    requires amount > 0.0 && 80.0 * amount <= product <= 125.0 * amount
    ensures 0.8 * amount <= product / 100.0 <= 1.25 * amount
    ensures !(80.0 * amount <= product / 100.0)
  {
  }

  predicate Rescales(kind: TxnType, quantity: real, price: real, amount: real) {
    Trades(kind) && quantity > 0.0 && price > 0.0 && amount > 0.0
    && 80.0 * amount <= quantity * price <= 125.0 * amount
  }

  lemma NormalizedExactly(kind: TxnType, quantity: real, price: real, amount: real)
    ensures NormalizeBondQuantity(kind, quantity, price, amount)
         == if Rescales(kind, quantity, price, amount) then quantity / 100.0 else quantity
  {
    if amount > 0.0 {
      BandExactly(quantity, price, amount);
    }
  }

  /** A quantity is rescaled only into agreement with the cash, and never twice. */
  lemma NormalizedOnceIntoBand(kind: TxnType, quantity: real, price: real, amount: real)
    ensures var n := NormalizeBondQuantity(kind, quantity, price, amount);
      && NormalizeBondQuantity(kind, n, price, amount) == n
      && (n != quantity ==> amount > 0.0 && 0.8 * amount <= n * price <= 1.25 * amount)
  {
    NormalizedExactly(kind, quantity, price, amount);
    if Rescales(kind, quantity, price, amount) {
      NormalizedExactly(kind, quantity / 100.0, price, amount);
      Hundredth(quantity, price);
      HundredthLeavesBand(quantity * price, amount);
    }
  }

  function ToEntry(row: TxnRow): Entry {
    var raw := row.raw;
    Entry(row.acct, raw.(ticker := Text.Upper(row.symbol.GetOr("")),
                         quantity := NormalizeBondQuantity(raw.kind, raw.quantity, raw.price, raw.amount)))
  }

  /** An entry is the stored transaction under its account, with the security's symbol upper-cased, and
      its quantity a hundredth when a purchase or sale is booked at face value. */
  lemma EntryOfRow(row: TxnRow)
    ensures var e, raw := ToEntry(row), row.raw;
      var bought := raw.kind == Buy || raw.kind == Reinvestment || raw.kind == Sell;
      && e.acct == row.acct && e.txn.when == raw.when && e.txn.kind == raw.kind
      && e.txn.price == raw.price && e.txn.amount == raw.amount && e.txn.fees == raw.fees
      && e.txn.ticker == (if row.symbol.Some? then Text.Upper(row.symbol.value) else "")
      && e.txn.quantity
         == if bought && raw.quantity > 0.0 && raw.price > 0.0 && raw.amount > 0.0
               && 80.0 * raw.amount <= raw.quantity * raw.price <= 125.0 * raw.amount
            then raw.quantity / 100.0 else raw.quantity
  {
    NormalizedExactly(row.raw.kind, row.raw.quantity, row.raw.price, row.raw.amount);
    if row.symbol.None? {
      assert Text.Upper("") == "";
    }
  }

  function AllEntries(txns: seq<TxnRow>): seq<Entry> {
    if |txns| == 0 then [] else AllEntries(txns[..|txns| - 1]) + [ToEntry(txns[|txns| - 1])]
  }

  /** The engine transactions of a set of the portfolio's accounts, in stored order. */
  function Entries(db: Db, pid: int, accts: set<Acct>): seq<Entry> {
    Kept(AllEntries(db.txns), In(PortfolioAccounts(db, pid) * accts))
  }

  lemma {:induction false} KeptMembers(txns: seq<Entry>, keep: Entry -> bool, e: Entry)
    ensures e in Kept(txns, keep) <==> e in txns && keep(e)
    decreases |txns|
  {
    if |txns| > 0 {
      var most, last := txns[..|txns| - 1], txns[|txns| - 1];
      assert txns == most + [last];
      KeptMembers(most, keep, e);
    }
  }

  lemma {:induction false} KeptKept(txns: seq<Entry>, a: set<Acct>, b: set<Acct>)
    ensures Kept(Kept(txns, In(a)), In(b)) == Kept(txns, In(a * b))
    decreases |txns|
  {
    if |txns| > 0 {
      var kept, last := Kept(txns[..|txns| - 1], In(a)), txns[|txns| - 1];
      KeptKept(txns[..|txns| - 1], a, b);
      assert (kept + [last])[..|kept|] == kept;
    }
  }

  /** Reading some accounts' transactions and keeping fewer is reading those directly. */
  lemma EntriesNarrow(db: Db, pid: int, a: set<Acct>, b: set<Acct>)
    ensures Kept(Entries(db, pid, a), In(b)) == Entries(db, pid, a * b)
  {
    KeptKept(AllEntries(db.txns), PortfolioAccounts(db, pid) * a, b);
    assert PortfolioAccounts(db, pid) * a * b == PortfolioAccounts(db, pid) * (a * b);
  }

  // ---------- Positions ----------

  predicate InScope(scope: Scope, acct: Acct) {
    match scope
    case Whole => true
    case One(a) => acct == a
    case Among(accts) => acct in accts
  }

  function RowsOf(positions: seq<PositionRow>, mine: set<Acct>, scope: Scope): seq<PositionRow> {
    if |positions| == 0 then []
    else
      var most, last := RowsOf(positions[..|positions| - 1], mine, scope), positions[|positions| - 1];
      if last.acct in mine && InScope(scope, last.acct) then most + [last] else most
  }

  function PositionRows(db: Db, pid: int, scope: Scope): seq<PositionRow> {
    RowsOf(db.positions, PortfolioAccounts(db, pid), scope)
  }

  // ---------- Currency by the tenant's own links ----------

  datatype Link = Link(acct: Acct, symbol: string, currency: string)

  function PositionLinks(positions: seq<PositionRow>): seq<Link> {
    if |positions| == 0 then []
    else [Link(positions[0].acct, positions[0].symbol, positions[0].currency)] + PositionLinks(positions[1..])
  }

  function TxnLinks(txns: seq<TxnRow>): seq<Link> {
    if |txns| == 0 then []
    else if txns[0].symbol.None? then TxnLinks(txns[1..])
    else [Link(txns[0].acct, txns[0].symbol.value, txns[0].currency)] + TxnLinks(txns[1..])
  }

  function Asked(symbols: set<string>, accts: set<Acct>): Link -> bool {
    (l: Link) => l.symbol in symbols && l.acct in accts
  }

  /** Rows of a link query, ordered by `le` (symbol then currency, in the store's collation).
      Repeated rows are kept: a repeat never changes what the first one set. */
  function Query(links: seq<Link>, symbols: set<string>, accts: set<Acct>, le: (Link, Link) -> bool): seq<Link> {
    Sorting.Sort(Sorting.Filter(links, Asked(symbols, accts)), le)
  }

  function OrUsd(currency: string): string {
    if currency == "" then "USD" else currency
  }

  lemma BlankIsDollars(currency: string)
    ensures OrUsd("") == "USD" && (currency != "" ==> OrUsd(currency) == currency)
  {
  }

  /** The first row seen for a symbol decides its currency. */
  function SetDefaults(known: map<string, string>, rows: seq<Link>): map<string, string>
    decreases |rows|
  {
    if |rows| == 0 then known
    else
      var next := if rows[0].symbol in known then known else known[rows[0].symbol := OrUsd(rows[0].currency)];
      SetDefaults(next, rows[1..])
  }

  /** Position links before transaction links. */
  function TenantCurrency(db: Db, symbols: set<string>, accts: set<Acct>, le: (Link, Link) -> bool)
    : map<string, string>
  {
    var fromPositions := SetDefaults(map[], Query(PositionLinks(db.positions), symbols, accts, le));
    SetDefaults(fromPositions, Query(TxnLinks(db.txns), symbols, accts, le))
  }

  method FillCurrencies(known: map<string, string>, rows: seq<Link>) returns (out: map<string, string>)
    ensures out == SetDefaults(known, rows)
  {
    out := known;
    for i := 0 to |rows|
      invariant SetDefaults(out, rows[i..]) == SetDefaults(known, rows)
    {
      assert rows[i..][1..] == rows[i + 1..];
      if rows[i].symbol !in out {
        out := out[rows[i].symbol := OrUsd(rows[i].currency)];
      }
    }
  }

  method TenantCurrencyBySymbol(db: Db, symbols: set<string>, accts: set<Acct>, le: (Link, Link) -> bool)
    returns (out: map<string, string>)
    ensures out == TenantCurrency(db, symbols, accts, le)
  {
    if symbols == {} {
      NoSymbolsNoCurrency(PositionLinks(db.positions), accts, le);
      NoSymbolsNoCurrency(TxnLinks(db.txns), accts, le);
      return map[];
    }
    out := FillCurrencies(map[], Query(PositionLinks(db.positions), symbols, accts, le));
    out := FillCurrencies(out, Query(TxnLinks(db.txns), symbols, accts, le));
  }

  lemma {:induction false} NoSymbolsNoCurrency(links: seq<Link>, accts: set<Acct>, le: (Link, Link) -> bool)
    ensures Query(links, {}, accts, le) == []
    decreases |links|
  {
    if |links| > 0 {
      NoSymbolsNoCurrency(links[1..], accts, le);
      Sorting.SortPermutes(Sorting.Filter(links[1..], Asked({}, accts)), le);
    }
  }
}
