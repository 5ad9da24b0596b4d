/** What a holding says of a ticker, on the lots and the position rows themselves:
    `_assemble_holdings` in api/services/analytics.py. */
module HoldingsMeaning {
  import opened Arithmetic
  import opened Wrappers
  import opened Sums
  import opened FifoLedger
  import opened LedgerReplay
  import opened PortfolioData
  import opened Holdings

  /** A broker position of the ticker. */
  predicate Reports(row: PositionRow, t: Ticker) {
    row.quantity > 0.0 && row.symbol == t
  }

  // ---------- Sums over lots and rows ----------

  lemma {:induction false} LotTotals(lots: seq<Lot>)
    ensures Shares(lots) == TotalBy(lots, (l: Lot) => l.quantity)
    ensures Basis(lots) == TotalBy(lots, (l: Lot) => l.quantity * l.costPerShare)
    decreases |lots|
  {
    if |lots| > 0 {
      LotTotals(lots[1..]);
    }
  }

  function Quantities(t: Ticker): PositionRow -> real {
    (r: PositionRow) => if r.quantity > 0.0 && r.symbol == t then r.quantity else 0.0
  }

  /** Quantity times average cost, as each position reports them. */
  function Costs(t: Ticker): PositionRow -> real {
    (r: PositionRow) => if r.quantity > 0.0 && r.symbol == t then r.quantity * r.avgCost else 0.0
  }

  function Values(t: Ticker): PositionRow -> real {
    (r: PositionRow) => if r.quantity > 0.0 && r.symbol == t && r.mvLocal.Some? then r.mvLocal.value else 0.0
  }

  lemma {:induction false} RowTotals(rows: seq<PositionRow>, t: Ticker)
    ensures RowQuantity(rows, t) == TotalBy(rows, Quantities(t))
    ensures RowCost(rows, t) == TotalBy(rows, Costs(t))
    ensures BrokerValue(rows, t).GetOr(0.0) == TotalBy(rows, Values(t))
    decreases |rows|
  {
    if |rows| > 0 {
      var most, last := rows[..|rows| - 1], rows[|rows| - 1];
      assert rows == most + [last];
      RowTotals(most, t);
      TotalByLast(most, last, Quantities(t));
      TotalByLast(most, last, Costs(t));
      TotalByLast(most, last, Values(t));
    }
  }

  lemma {:induction false} PositiveQuantities(rows: seq<PositionRow>, t: Ticker)
    ensures RowQuantity(rows, t) >= 0.0
    ensures (exists r :: r in rows && Reports(r, t)) <==> RowQuantity(rows, t) > 0.0
    decreases |rows|
  {
    if |rows| > 0 {
      var most, last := rows[..|rows| - 1], rows[|rows| - 1];
      assert rows == most + [last] && last in rows;
      assert forall r | r in most :: r in rows;
      assert forall r | r in rows :: r in most || r == last;
      PositiveQuantities(most, t);
    }
  }

  // ---------- Quantity and cost ----------

  /** The ledger's part: what the open lots hold, if that is anything. */
  function LotQuantities(lots: seq<Lot>): real {
    TotalBy(lots, (l: Lot) => l.quantity)
  }

  function LotCosts(lots: seq<Lot>): real {
    TotalBy(lots, (l: Lot) => l.quantity * l.costPerShare)
  }

  lemma AverageTimesQuantity(basis: real, shares: real)
    requires shares != 0.0
    ensures (basis / shares) * shares == basis
  {
    QuotientTimes(basis, shares);
  }

  lemma LedgerPart(b: Books, t: Ticker)
    ensures LedgerQuantity(b, t) == if LotQuantities(LotsOf(b, t)) > 0.0 then LotQuantities(LotsOf(b, t)) else 0.0
    ensures LedgerCost(b, t) == if LotQuantities(LotsOf(b, t)) > 0.0 then LotCosts(LotsOf(b, t)) else 0.0
  {
    var lots := LotsOf(b, t);
    LotTotals(lots);
    if Shares(lots) > 0.0 {
      PositionHolds(lots);
      AverageTimesQuantity(Basis(lots), Shares(lots));
    }
  }

  lemma HeldExactly(b: Books, rows: seq<PositionRow>, ccy: map<string, string>, t: Ticker)
    ensures t in Assembled(b, rows, ccy)
       <==> LotQuantities(LotsOf(b, t)) > 0.0 || exists r :: r in rows && Reports(r, t)
  {
    LedgerPart(b, t);
    assert t in HeldTickers(b, rows)
      <==> (t in b.openLots && LedgerQuantity(b, t) > 0.0)
           || exists r :: r in rows && r.quantity > 0.0 && r.symbol == t;
  }

  /** A holding's fields, by the fold's sums. */
  predicate Figured(b: Books, rows: seq<PositionRow>, ccy: map<string, string>, t: Ticker, h: Holding) {
    && h.ticker == t && h.quantity > 0.0
    && h.quantity == LedgerQuantity(b, t) + RowQuantity(rows, t)
    && h.costBasis == LedgerCost(b, t) + RowCost(rows, t)
    && h.avgCost == Quotient(h.costBasis, h.quantity)
    && h.brokerValue == BrokerValue(rows, t) && h.brokerAsOf == OldestAsOf(rows, t)
    && h.brokerPrice == (if h.brokerValue.Some? then Some(Quotient(h.brokerValue.value, h.quantity)) else None)
    && h.currency == HeldCurrency(rows, t).GetOr(if t in ccy then ccy[t] else "USD")
  }

  lemma Figures(b: Books, rows: seq<PositionRow>, ccy: map<string, string>, t: Ticker, h: Holding)
    requires t in Assembled(b, rows, ccy) && h == Assembled(b, rows, ccy)[t]
    ensures Figured(b, rows, ccy, t, h)
  {
    HeldExactly(b, rows, ccy, t);
    LedgerPart(b, t);
    PositiveQuantities(rows, t);
  }

  /** Quantity is what the lots hold and the positions report, cost basis the lots' and the positions'
      quantity times cost, and average cost the one over the other. */
  ghost predicate CostsAsHeld(lots: seq<Lot>, rows: seq<PositionRow>, t: Ticker, h: Holding) {
    && h.ticker == t && h.quantity > 0.0 && Product(h.avgCost, h.quantity) == h.costBasis
    && h.quantity == (if LotQuantities(lots) > 0.0 then LotQuantities(lots) else 0.0) + TotalBy(rows, Quantities(t))
    && h.costBasis == (if LotQuantities(lots) > 0.0 then LotCosts(lots) else 0.0) + TotalBy(rows, Costs(t))
  }

  lemma FiguredCosts(b: Books, rows: seq<PositionRow>, ccy: map<string, string>, t: Ticker, h: Holding)
    requires Figured(b, rows, ccy, t, h)
    ensures CostsAsHeld(LotsOf(b, t), rows, t, h)
  {
    LedgerPart(b, t);
    RowTotals(rows, t);
    QuotientTimes(h.costBasis, h.quantity);
  }

  lemma QuantityAndCost(b: Books, rows: seq<PositionRow>, ccy: map<string, string>, t: Ticker, h: Holding)
    requires t in Assembled(b, rows, ccy) && h == Assembled(b, rows, ccy)[t]
    ensures CostsAsHeld(LotsOf(b, t), rows, t, h)
  {
    Figures(b, rows, ccy, t, h);
    FiguredCosts(b, rows, ccy, t, h);
  }

  /** A single position: its own quantity and average cost, and their product. */
  lemma OnePosition(row: PositionRow, ccy: map<string, string>)
    requires row.quantity > 0.0
    ensures row.symbol in Assembled(EMPTY, [row], ccy)
    ensures var h := Assembled(EMPTY, [row], ccy)[row.symbol];
      && h.quantity == row.quantity && h.costBasis == Product(row.quantity, row.avgCost) && h.avgCost == row.avgCost
      && h.brokerValue == row.mvLocal && h.brokerAsOf == row.asOf
      && (row.currency != "" ==> h.currency == row.currency)
  {
    var t, one := row.symbol, [row];
    assert row in one && Reports(row, t);
    HeldExactly(EMPTY, one, ccy, t);
    var h := Assembled(EMPTY, one, ccy)[t];
    Figures(EMPTY, one, ccy, t, h);
    OneRow(row);
    assert LedgerQuantity(EMPTY, t) == 0.0 && LedgerCost(EMPTY, t) == 0.0;
    AverageOfOne(h.costBasis, row.quantity, row.avgCost);
  }

  lemma OneRow(row: PositionRow)
    requires row.quantity > 0.0
    ensures RowQuantity([row], row.symbol) == row.quantity
    ensures RowCost([row], row.symbol) == Product(row.quantity, row.avgCost)
    ensures BrokerValue([row], row.symbol) == row.mvLocal && OldestAsOf([row], row.symbol) == row.asOf
    ensures HeldCurrency([row], row.symbol) == if row.currency != "" then Some(row.currency) else None
  {
    assert [row][..0] == [];
  }

  lemma AverageOfOne(basis: real, q: real, c: real)
    requires q > 0.0 && basis == Product(q, c)
    ensures Quotient(basis, q) == c
  {
    assert Product(c, q) == basis;
    QuotientIs(basis, q, c);
  }

  // ---------- The broker's figures ----------

  lemma {:induction false} ReportedValue(rows: seq<PositionRow>, t: Ticker)
    ensures BrokerValue(rows, t).Some? <==> exists r :: r in rows && Reports(r, t) && r.mvLocal.Some?
    decreases |rows|
  {
    if |rows| > 0 {
      var most, last := rows[..|rows| - 1], rows[|rows| - 1];
      assert rows == most + [last] && last in rows;
      assert forall r | r in most :: r in rows;
      assert forall r | r in rows :: r in most || r == last;
      ReportedValue(most, t);
    }
  }

  /** The snapshot date is the oldest any of the ticker's positions carries. */
  lemma {:induction false} OldestDate(rows: seq<PositionRow>, t: Ticker)
    ensures OldestAsOf(rows, t).Some? <==> exists r :: r in rows && Reports(r, t) && r.asOf.Some?
    ensures OldestAsOf(rows, t).Some? ==>
      && (exists r :: r in rows && Reports(r, t) && r.asOf == OldestAsOf(rows, t))
      && forall r | r in rows && Reports(r, t) && r.asOf.Some? :: OldestAsOf(rows, t).value <= r.asOf.value
    decreases |rows|
  {
    if |rows| > 0 {
      var most, last := rows[..|rows| - 1], rows[|rows| - 1];
      assert rows == most + [last] && last in rows;
      assert forall r | r in most :: r in rows;
      assert forall r | r in rows :: r in most || r == last;
      OldestDate(most, t);
    }
  }

  /** The currency is the first one any of the ticker's positions carries, that of row `i`. */
  lemma {:induction false} FirstCurrency(rows: seq<PositionRow>, t: Ticker) returns (i: nat)
    ensures i <= |rows| && forall j | 0 <= j < i && Reports(rows[j], t) :: rows[j].currency == ""
    ensures HeldCurrency(rows, t)
         == if i < |rows| then Some(rows[i].currency) else None
    ensures i < |rows| ==> Reports(rows[i], t) && rows[i].currency != ""
    decreases |rows|
  {
    i := 0;
    if |rows| > 0 {
      var most, last := rows[..|rows| - 1], rows[|rows| - 1];
      i := FirstCurrency(most, t);
      assert forall j | 0 <= j < |most| :: rows[j] == most[j];
      if i == |most| && !(Reports(last, t) && last.currency != "") {
        i := |rows|;
      }
    }
  }

  /** The broker's value is the sum of what the positions report, and its price that over the quantity. */
  ghost predicate ValueAsReported(rows: seq<PositionRow>, t: Ticker, h: Holding) {
    && (h.brokerValue.Some? <==> exists r :: r in rows && Reports(r, t) && r.mvLocal.Some?)
    && (h.brokerValue.Some? ==> h.brokerValue.value == TotalBy(rows, Values(t)))
    && (h.brokerPrice.Some? <==> h.brokerValue.Some?)
    && (h.brokerPrice.Some? ==> Product(h.brokerPrice.value, h.quantity) == h.brokerValue.value)
  }

  /** The snapshot date is the oldest the positions carry. */
  ghost predicate DateAsReported(rows: seq<PositionRow>, t: Ticker, h: Holding) {
    && (h.brokerAsOf.Some? <==> exists r :: r in rows && Reports(r, t) && r.asOf.Some?)
    && (h.brokerAsOf.Some? ==>
          && (exists r :: r in rows && Reports(r, t) && r.asOf == h.brokerAsOf)
          && forall r | r in rows && Reports(r, t) && r.asOf.Some? :: h.brokerAsOf.value <= r.asOf.value)
  }

  /** The currency is the first the positions carry, else the account's own link's, else dollars. */
  ghost predicate CurrencyAsReported(rows: seq<PositionRow>, ccy: map<string, string>, t: Ticker, h: Holding) {
    if forall r | r in rows && Reports(r, t) :: r.currency == "" then
      h.currency == if t in ccy then ccy[t] else "USD"
    else exists i ::
      && 0 <= i < |rows| && Reports(rows[i], t) && rows[i].currency == h.currency && h.currency != ""
      && forall j | 0 <= j < i && Reports(rows[j], t) :: rows[j].currency == ""
  }

  lemma FiguredValue(b: Books, rows: seq<PositionRow>, ccy: map<string, string>, t: Ticker, h: Holding)
    requires Figured(b, rows, ccy, t, h)
    ensures ValueAsReported(rows, t, h)
  {
    RowTotals(rows, t);
    ReportedValue(rows, t);
    if h.brokerValue.Some? {
      QuotientTimes(h.brokerValue.value, h.quantity);
    }
  }

  lemma FiguredDate(b: Books, rows: seq<PositionRow>, ccy: map<string, string>, t: Ticker, h: Holding)
    requires Figured(b, rows, ccy, t, h)
    ensures DateAsReported(rows, t, h)
  {
    OldestDate(rows, t);
  }

  lemma FiguredCurrency(b: Books, rows: seq<PositionRow>, ccy: map<string, string>, t: Ticker, h: Holding)
    requires Figured(b, rows, ccy, t, h)
    ensures CurrencyAsReported(rows, ccy, t, h)
  {
    var i := FirstCurrency(rows, t);
    if i == |rows| {
      forall r | r in rows && Reports(r, t) ensures r.currency == "" {
        var j :| 0 <= j < |rows| && rows[j] == r;
      }
    } else {
      assert rows[i] in rows;
    }
  }

  lemma BrokerFigures(b: Books, rows: seq<PositionRow>, ccy: map<string, string>, t: Ticker, h: Holding)
    requires t in Assembled(b, rows, ccy) && h == Assembled(b, rows, ccy)[t]
    ensures ValueAsReported(rows, t, h) && DateAsReported(rows, t, h) && CurrencyAsReported(rows, ccy, t, h)
  {
    Figures(b, rows, ccy, t, h);
    FiguredValue(b, rows, ccy, t, h);
    FiguredDate(b, rows, ccy, t, h);
    FiguredCurrency(b, rows, ccy, t, h);
  }
}
