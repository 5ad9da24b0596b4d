/** Current holdings from ledger accounts and broker snapshots, one scope at a time and for
    every account at once: `_holdings`, `_assemble_holdings` and `_holdings_by_account` in
    api/services/analytics.py. */
module Holdings {
  import opened Wrappers
  import opened FifoLedger
  import opened LedgerReplay
  import opened PortfolioLedger
  import opened PortfolioData
  import OrderedSets
  import Text

  datatype Holding = Holding(
    ticker: Ticker, quantity: real, avgCost: real, costBasis: real, currency: string,
    brokerPrice: Option<real>, brokerValue: Option<real>, brokerAsOf: Option<int>)

  type Rows = map<Ticker, Holding>

  // ---------- What one scope's rows say about a ticker ----------

  /** `Ledger.position`: shares held and their weighted average cost. */
  function Position(lots: seq<Lot>): (real, real) {
    var shares := Shares(lots);
    if shares <= 0.0 then (0.0, 0.0) else (shares, Basis(lots) / shares)
  }

  function LedgerQuantity(b: Books, t: Ticker): real {
    Position(LotsOf(b, t)).0
  }

  function LedgerCost(b: Books, t: Ticker): real {
    var (shares, avg) := Position(LotsOf(b, t));
    shares * avg
  }

  predicate About(row: PositionRow, t: Ticker) {
    row.quantity > 0.0 && row.symbol == t
  }

  function RowQuantity(rows: seq<PositionRow>, t: Ticker): real {
    if |rows| == 0 then 0.0
    else
      var most, last := RowQuantity(rows[..|rows| - 1], t), rows[|rows| - 1];
      if About(last, t) then most + last.quantity else most
  }

  function RowWorth(row: PositionRow): real {
    row.quantity * row.avgCost
  }

  function RowCost(rows: seq<PositionRow>, t: Ticker): real {
    if |rows| == 0 then 0.0
    else
      var most, last := RowCost(rows[..|rows| - 1], t), rows[|rows| - 1];
      if About(last, t) then most + RowWorth(last) else most
  }

  /** The first non-blank currency on the ticker's own position rows. */
  function HeldCurrency(rows: seq<PositionRow>, t: Ticker): Option<string> {
    if |rows| == 0 then None
    else
      var most, last := HeldCurrency(rows[..|rows| - 1], t), rows[|rows| - 1];
      if most.None? && About(last, t) && last.currency != "" then Some(last.currency) else most
  }

  /** The stalest contributing snapshot date. */
  function OldestAsOf(rows: seq<PositionRow>, t: Ticker): Option<int> {
    if |rows| == 0 then None
    else
      var most, last := OldestAsOf(rows[..|rows| - 1], t), rows[|rows| - 1];
      if About(last, t) && last.asOf.Some? && (most.None? || last.asOf.value < most.value) then last.asOf else most
  }

  function BrokerValue(rows: seq<PositionRow>, t: Ticker): Option<real> {
    if |rows| == 0 then None
    else
      var most, last := BrokerValue(rows[..|rows| - 1], t), rows[|rows| - 1];
      if About(last, t) && last.mvLocal.Some? then Some(most.GetOr(0.0) + last.mvLocal.value) else most
  }

  function HeldTickers(b: Books, rows: seq<PositionRow>): set<Ticker> {
    (set t | t in b.openLots && LedgerQuantity(b, t) > 0.0) + (set r | r in rows && r.quantity > 0.0 :: r.symbol)
  }

  function HoldingOf(b: Books, rows: seq<PositionRow>, ccy: map<string, string>, t: Ticker): Holding {
    var shares, basis := LedgerQuantity(b, t) + RowQuantity(rows, t), LedgerCost(b, t) + RowCost(rows, t);
    var value := BrokerValue(rows, t);
    Holding(t, shares, if shares != 0.0 then basis / shares else 0.0, basis,
            HeldCurrency(rows, t).GetOr(if t in ccy then ccy[t] else "USD"),
            if value.Some? && shares != 0.0 then Some(value.value / shares) else None, value, OldestAsOf(rows, t))
  }

  /** Tickers no position row carries a currency for. */
  function Unpriced(b: Books, rows: seq<PositionRow>): set<Ticker> {
    set t | t in HeldTickers(b, rows) && HeldCurrency(rows, t).None?
  }

  function Assembled(b: Books, rows: seq<PositionRow>, ccy: map<string, string>): Rows {
    map t | t in HeldTickers(b, rows) :: HoldingOf(b, rows, ccy, t)
  }

  // ---------- The fold ----------

  datatype Fold = Fold(
    agg: map<Ticker, (real, real)>, value: map<Ticker, real>, asOf: map<Ticker, int>, ccy: map<Ticker, string>)

  function At<T>(m: map<Ticker, T>, t: Ticker): Option<T> {
    if t in m then Some(m[t]) else None
  }

  function LedgerAgg(b: Books, seen: set<Ticker>): map<Ticker, (real, real)> {
    map t | t in seen && t in b.openLots && LedgerQuantity(b, t) > 0.0 :: (LedgerQuantity(b, t), LedgerCost(b, t))
  }

  ghost predicate FoldedAgg(agg: map<Ticker, (real, real)>, b: Books, rows: seq<PositionRow>) {
    agg.Keys == HeldTickers(b, rows)
    && forall t :: AggAt(agg, b, rows, t)
  }

  /** The tables after `rows`, on top of the ledger `b`. */
  ghost predicate Folded(f: Fold, b: Books, rows: seq<PositionRow>) {
    && FoldedAgg(f.agg, b, rows)
    && (forall t :: At(f.value, t) == BrokerValue(rows, t))
    && (forall t :: At(f.asOf, t) == OldestAsOf(rows, t))
    && (forall t :: At(f.ccy, t) == HeldCurrency(rows, t))
  }

  lemma {:induction false} NoRowsNoSums(rows: seq<PositionRow>, t: Ticker)
    requires forall r | r in rows :: !About(r, t)
    ensures RowQuantity(rows, t) == 0.0 && RowCost(rows, t) == 0.0
    decreases |rows|
  {
    if |rows| > 0 {
      assert rows[|rows| - 1] in rows;
      NoRowsNoSums(rows[..|rows| - 1], t);
    }
  }

  lemma NoLotsNoLedger(b: Books, t: Ticker)
    ensures t !in b.openLots || LedgerQuantity(b, t) <= 0.0 ==> LedgerQuantity(b, t) == 0.0 && LedgerCost(b, t) == 0.0
  {
  }

  lemma PositionHolds(lots: seq<Lot>)
    ensures Shares(lots) > 0.0 ==> Position(lots).0 * Position(lots).1 == Basis(lots)
  {
  }

  method FoldLedger(b: Books) returns (agg: map<Ticker, (real, real)>)
    ensures agg == LedgerAgg(b, b.openLots.Keys)
  {
    agg := map[];
    var rest := b.openLots.Keys;
    while rest != {}
      invariant rest <= b.openLots.Keys
      invariant agg == LedgerAgg(b, b.openLots.Keys - rest)
    {
      var t :| t in rest;
      var (shares, avg) := Position(LotsOf(b, t));
      assert shares == LedgerQuantity(b, t) && shares * avg == LedgerCost(b, t);
      if shares > 0.0 {
        agg := agg[t := (shares, shares * avg)];
      }
      assert b.openLots.Keys - (rest - {t}) == b.openLots.Keys - rest + {t};
      rest := rest - {t};
    }
    assert b.openLots.Keys - rest == b.openLots.Keys;
  }

  function AggTaken(agg: map<Ticker, (real, real)>, row: PositionRow): map<Ticker, (real, real)> {
    var had := if row.symbol in agg then agg[row.symbol] else (0.0, 0.0);
    agg[row.symbol := (had.0 + row.quantity, had.1 + RowWorth(row))]
  }

  /** One position row added to the tables. */
  function Taken(f: Fold, row: PositionRow): Fold {
    if row.quantity <= 0.0 then f
    else
      var t := row.symbol;
      Fold(AggTaken(f.agg, row),
           if row.mvLocal.Some? then f.value[t := At(f.value, t).GetOr(0.0) + row.mvLocal.value] else f.value,
           if row.asOf.Some? && (t !in f.asOf || row.asOf.value < f.asOf[t])
           then f.asOf[t := row.asOf.value] else f.asOf,
           if row.currency != "" && t !in f.ccy then f.ccy[t := row.currency] else f.ccy)
  }

  lemma RowsGrow(rows: seq<PositionRow>, row: PositionRow)
    ensures (rows + [row])[..|rows + [row]| - 1] == rows && (rows + [row])[|rows + [row]| - 1] == row
  {
  }

  lemma TickersGrow(b: Books, rows: seq<PositionRow>, row: PositionRow)
    ensures HeldTickers(b, rows + [row]) == HeldTickers(b, rows) + if row.quantity > 0.0 then {row.symbol} else {}
  {
    assert forall r :: r in rows + [row] <==> r in rows || r == row;
  }

  ghost predicate AggAt(agg: map<Ticker, (real, real)>, b: Books, rows: seq<PositionRow>, t: Ticker) {
    t in agg ==>
      && agg[t].0 == LedgerQuantity(b, t) + RowQuantity(rows, t)
      && agg[t].1 == LedgerCost(b, t) + RowCost(rows, t)
  }

  lemma OtherRow(rows: seq<PositionRow>, row: PositionRow, t: Ticker)
    ensures !About(row, t) ==>
      RowQuantity(rows + [row], t) == RowQuantity(rows, t) && RowCost(rows + [row], t) == RowCost(rows, t)
    ensures About(row, t) ==> RowQuantity(rows + [row], t) == RowQuantity(rows, t) + row.quantity
    ensures About(row, t) ==> RowCost(rows + [row], t) == RowCost(rows, t) + RowWorth(row)
  {
    RowsGrow(rows, row);
  }

  lemma AggTakenAt(agg: map<Ticker, (real, real)>, b: Books, rows: seq<PositionRow>, row: PositionRow, t: Ticker)
    requires FoldedAgg(agg, b, rows) && row.quantity > 0.0
    ensures AggAt(AggTaken(agg, row), b, rows + [row], t)
  {
    OtherRow(rows, row, t);
    assert AggAt(agg, b, rows, t);
    if t == row.symbol && t !in agg {
      NoLotsNoLedger(b, t);
      NoRowsNoSums(rows, t);
    }
  }

  lemma AggTakenFolds(agg: map<Ticker, (real, real)>, b: Books, rows: seq<PositionRow>, row: PositionRow)
    requires FoldedAgg(agg, b, rows)
    ensures FoldedAgg(if row.quantity > 0.0 then AggTaken(agg, row) else agg, b, rows + [row])
  {
    TickersGrow(b, rows, row);
    var agg' := if row.quantity > 0.0 then AggTaken(agg, row) else agg;
    forall t ensures AggAt(agg', b, rows + [row], t) {
      if row.quantity > 0.0 {
        AggTakenAt(agg, b, rows, row, t);
      } else {
        OtherRow(rows, row, t);
        assert AggAt(agg, b, rows, t);
      }
    }
  }

  lemma TablesTaken(f: Fold, rows: seq<PositionRow>, row: PositionRow, t: Ticker)
    requires At(f.value, t) == BrokerValue(rows, t)
    requires At(f.asOf, t) == OldestAsOf(rows, t)
    requires At(f.ccy, t) == HeldCurrency(rows, t)
    ensures At(Taken(f, row).value, t) == BrokerValue(rows + [row], t)
    ensures At(Taken(f, row).asOf, t) == OldestAsOf(rows + [row], t)
    ensures At(Taken(f, row).ccy, t) == HeldCurrency(rows + [row], t)
  {
    RowsGrow(rows, row);
  }

  lemma TakenFolds(f: Fold, b: Books, rows: seq<PositionRow>, row: PositionRow)
    requires Folded(f, b, rows)
    ensures Folded(Taken(f, row), b, rows + [row])
  {
    AggTakenFolds(f.agg, b, rows, row);
    forall t ensures At(Taken(f, row).value, t) == BrokerValue(rows + [row], t)
                  && At(Taken(f, row).asOf, t) == OldestAsOf(rows + [row], t)
                  && At(Taken(f, row).ccy, t) == HeldCurrency(rows + [row], t) {
      assert At(f.value, t) == BrokerValue(rows, t) && At(f.asOf, t) == OldestAsOf(rows, t)
          && At(f.ccy, t) == HeldCurrency(rows, t);
      TablesTaken(f, rows, row, t);
    }
  }

  method FoldRow(f: Fold, row: PositionRow) returns (f': Fold)
    ensures f' == Taken(f, row)
  {
    if row.quantity <= 0.0 { return f; }
    var t, agg, value, asOf, ccy := row.symbol, f.agg, f.value, f.asOf, f.ccy;
    var had := if t in agg then agg[t] else (0.0, 0.0);
    agg := agg[t := (had.0 + row.quantity, had.1 + RowWorth(row))];
    if row.currency != "" && t !in ccy {
      ccy := ccy[t := row.currency];
    }
    if row.asOf.Some? && (t !in asOf || row.asOf.value < asOf[t]) {
      asOf := asOf[t := row.asOf.value];
    }
    if row.mvLocal.Some? {
      value := value[t := (if t in value then value[t] else 0.0) + row.mvLocal.value];
    }
    f' := Fold(agg, value, asOf, ccy);
    assert f'.ccy == Taken(f, row).ccy;
    assert f'.asOf == Taken(f, row).asOf;
    assert f'.value == Taken(f, row).value;
  }

  lemma LedgerAggFolds(b: Books)
    ensures Folded(Fold(LedgerAgg(b, b.openLots.Keys), map[], map[], map[]), b, [])
  {
  }

  method FoldRows(b: Books, rows: seq<PositionRow>) returns (f: Fold)
    ensures Folded(f, b, rows)
  {
    var agg := FoldLedger(b);
    LedgerAggFolds(b);
    f := Fold(agg, map[], map[], map[]);
    for i := 0 to |rows|
      invariant Folded(f, b, rows[..i])
    {
      TakenFolds(f, b, rows[..i], rows[i]);
      assert rows[..i + 1] == rows[..i] + [rows[i]];
      f := FoldRow(f, rows[i]);
    }
    assert rows[..|rows|] == rows;
  }

  function Emitted(f: Fold, known: map<string, string>, t: Ticker): Holding
    requires t in f.agg
  {
    var (shares, basis) := f.agg[t];
    var value := At(f.value, t);
    Holding(t, shares, if shares != 0.0 then basis / shares else 0.0, basis,
            At(f.ccy, t).GetOr(if t in known then known[t] else "USD"),
            if value.Some? && shares != 0.0 then Some(value.value / shares) else None, value, At(f.asOf, t))
  }

  lemma EmittedIsHolding(f: Fold, b: Books, rows: seq<PositionRow>, known: map<string, string>)
    requires Folded(f, b, rows)
    ensures (map t | t in f.agg :: Emitted(f, known, t)) == Assembled(b, rows, known)
  {
    forall t | t in f.agg ensures Emitted(f, known, t) == HoldingOf(b, rows, known, t) {
      assert AggAt(f.agg, b, rows, t);
      assert At(f.value, t) == BrokerValue(rows, t) && At(f.asOf, t) == OldestAsOf(rows, t)
          && At(f.ccy, t) == HeldCurrency(rows, t);
    }
  }

  // ---------- The list ----------

  ghost function TickersOf(rows: Rows): (r: seq<Ticker>)
    ensures OrderedSets.Lists(r, rows.Keys, Text.Alphabetical())
  {
    Text.AlphabeticalIsLinear();
    OrderedSets.InOrder(rows.Keys, Text.Alphabetical())
  }

  /** Rows as the readers return them: one for each ticker, sorted by ticker. */
  ghost function ListOf(rows: Rows): seq<Holding> {
    var tickers := TickersOf(rows);
    seq(|tickers|, i requires 0 <= i < |tickers| => assert tickers[i] in tickers; rows[tickers[i]])
  }

  method SortRows(rows: Rows) returns (out: seq<Holding>)
    ensures out == ListOf(rows)
  {
    Text.AlphabeticalIsLinear();
    var tickers := OrderedSets.SortedSet(rows.Keys, Text.Alphabetical());
    out := [];
    for i := 0 to |tickers|
      invariant |out| == i && forall k | 0 <= k < i :: tickers[k] in rows && out[k] == rows[tickers[k]]
    {
      assert tickers[i] in tickers;
      out := out + [rows[tickers[i]]];
    }
  }

  method AssembleHoldings(b: Books, rows: seq<PositionRow>, known: map<string, string>) returns (out: seq<Holding>)
    ensures out == ListOf(Assembled(b, rows, known))
  {
    var f := FoldRows(b, rows);
    EmittedIsHolding(f, b, rows, known);
    out := SortRows(map t | t in f.agg :: Emitted(f, known, t));
  }
}
