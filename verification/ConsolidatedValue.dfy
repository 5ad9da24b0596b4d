/** When a ticker's consolidated value is the sum of its accounts' values: the readers of
    Holdings and the valuation of Valuation put together. */
module ConsolidatedValue {
  import opened Wrappers
  import opened Arithmetic
  import opened FifoLedger
  import opened PortfolioLedger
  import opened PortfolioData
  import opened Holdings
  import opened HoldingsReaders
  import opened HoldingsConservation
  import opened Valuation

  function Both(x: Option<real>, y: Option<real>): Option<real> {
    if x.None? then y else if y.None? then x else Some(x.value + y.value)
  }

  /** A total with one more amount, when it counts. */
  function With(x: Option<real>, counts: bool, more: Option<real>): Option<real> {
    if counts then Both(x, more) else x
  }

  lemma BothMoves(x: Option<real>, y: Option<real>, z: Option<real>)
    ensures Both(Both(x, y), z) == Both(Both(x, z), y) && Both(Both(x, y), z) == Both(x, Both(y, z))
  {
  }

  lemma WithSplits(x: Option<real>, y: Option<real>, inA: bool, inB: bool, more: Option<real>)
    requires !(inA && inB)
    ensures With(Both(x, y), inA || inB, more) == Both(With(x, inA, more), With(y, inB, more))
  {
    BothMoves(x, y, more);
  }

  lemma BrokerValueLast(rows: seq<PositionRow>, row: PositionRow, t: Ticker)
    ensures BrokerValue(rows + [row], t) == With(BrokerValue(rows, t), About(row, t), row.mvLocal)
  {
    RowsGrow(rows, row);
  }

  predicate CountsIn(row: PositionRow, mine: set<Acct>, accts: set<Acct>, t: Ticker) {
    row.acct in mine && row.acct in accts && About(row, t)
  }

  function TotalAmong(positions: seq<PositionRow>, mine: set<Acct>, accts: set<Acct>, t: Ticker): Option<real> {
    BrokerValue(RowsOf(positions, mine, Among(accts)), t)
  }

  lemma TotalLast(most: seq<PositionRow>, last: PositionRow, mine: set<Acct>, accts: set<Acct>, t: Ticker)
    ensures TotalAmong(most + [last], mine, accts, t)
         == With(TotalAmong(most, mine, accts, t), CountsIn(last, mine, accts, t), last.mvLocal)
  {
    RowsOfLast(most, last, mine, Among(accts));
    BrokerValueLast(RowsOf(most, mine, Among(accts)), last, t);
  }

  /** Broker totals of disjoint account sets add up; accounts that report none add none. */
  lemma {:induction false} BrokerTotalsAdd(
    positions: seq<PositionRow>, mine: set<Acct>, a: set<Acct>, b: set<Acct>, t: Ticker)
    requires a !! b
    ensures TotalAmong(positions, mine, a + b, t)
         == Both(TotalAmong(positions, mine, a, t), TotalAmong(positions, mine, b, t))
    decreases |positions|
  {
    if |positions| > 0 {
      var most, last := positions[..|positions| - 1], positions[|positions| - 1];
      assert positions == most + [last];
      BrokerTotalsAdd(most, mine, a, b, t);
      TotalLast(most, last, mine, a + b, t);
      TotalLast(most, last, mine, a, t);
      TotalLast(most, last, mine, b, t);
      WithSplits(TotalAmong(most, mine, a, t), TotalAmong(most, mine, b, t),
                 CountsIn(last, mine, a, t), CountsIn(last, mine, b, t), last.mvLocal);
    }
  }

  /** `h` is the row of ticker `t` in the holdings of `accts`. */
  ghost predicate IsRow(db: Db, pid: int, accts: set<Acct>, le: Order, t: Ticker, h: Holding) {
    var rows := HoldingsOf(db, pid, Among(accts), le);
    t in rows && rows[t] == h
  }

  lemma RowParts(db: Db, pid: int, accts: set<Acct>, le: Order, t: Ticker, h: Holding)
    requires IsRow(db, pid, accts, le, t, h)
    ensures h.ticker == t && h.brokerPrice == TotalPerShare(h)
    ensures h.quantity == Quantity(HoldingsOf(db, pid, Among(accts), le), t)
    ensures h.costBasis == Cost(HoldingsOf(db, pid, Among(accts), le), t)
    ensures h.brokerValue == BrokerValue(RowsOf(db.positions, PortfolioAccounts(db, pid), Among(accts)), t)
  {
  }

  lemma HeldHasRow(db: Db, pid: int, accts: set<Acct>, le: Order, t: Ticker) returns (h: Holding)
    requires Quantity(HoldingsOf(db, pid, Among(accts), le), t) > 0.0
    ensures IsRow(db, pid, accts, le, t, h)
  {
    h := HoldingsOf(db, pid, Among(accts), le)[t];
  }

  lemma JointTotals(
    db: Db, pid: int, a: set<Acct>, b: set<Acct>, le: Order, t: Ticker, x: Holding, y: Holding, joint: Holding)
    requires a !! b && IsRow(db, pid, a, le, t, x) && IsRow(db, pid, b, le, t, y) && IsRow(db, pid, a + b, le, t, joint)
    ensures joint.quantity == x.quantity + y.quantity && joint.costBasis == x.costBasis + y.costBasis
  {
    RowParts(db, pid, a, le, t, x);
    RowParts(db, pid, b, le, t, y);
    RowParts(db, pid, a + b, le, t, joint);
    ScopesAdd(db, pid, a, b, le, t);
  }

  lemma JointBrokerTotal(
    db: Db, pid: int, a: set<Acct>, b: set<Acct>, le: Order, t: Ticker, x: Holding, y: Holding, joint: Holding)
    requires a !! b && IsRow(db, pid, a, le, t, x) && IsRow(db, pid, b, le, t, y) && IsRow(db, pid, a + b, le, t, joint)
    ensures joint.brokerValue == Both(x.brokerValue, y.brokerValue)
  {
    RowParts(db, pid, a, le, t, x);
    RowParts(db, pid, b, le, t, y);
    RowParts(db, pid, a + b, le, t, joint);
    BrokerTotalsAdd(db.positions, PortfolioAccounts(db, pid), a, b, t);
  }

  lemma JointRowExists(
    db: Db, pid: int, a: set<Acct>, b: set<Acct>, le: Order, t: Ticker, x: Holding, y: Holding)
    returns (joint: Holding)
    requires a !! b && IsRow(db, pid, a, le, t, x) && IsRow(db, pid, b, le, t, y)
    requires x.quantity > 0.0 && y.quantity > 0.0
    ensures IsRow(db, pid, a + b, le, t, joint)
  {
    ScopesAdd(db, pid, a, b, le, t);
    joint := HeldHasRow(db, pid, a + b, le, t);
  }

  /** `joint` has the figures of `x` and `y` consolidated. */
  predicate Joins(joint: Holding, x: Holding, y: Holding, t: Ticker) {
    && joint.ticker == x.ticker == y.ticker == t
    && joint.quantity == x.quantity + y.quantity && joint.costBasis == x.costBasis + y.costBasis
    && joint.brokerValue == Both(x.brokerValue, y.brokerValue)
    && x.brokerPrice == TotalPerShare(x) && y.brokerPrice == TotalPerShare(y)
    && joint.brokerPrice == TotalPerShare(joint)
  }

  /** In what valuation reads, the joint row is the two rows consolidated. */
  lemma JointRow(
    db: Db, pid: int, a: set<Acct>, b: set<Acct>, le: Order, t: Ticker, x: Holding, y: Holding)
    returns (joint: Holding)
    requires a !! b && IsRow(db, pid, a, le, t, x) && IsRow(db, pid, b, le, t, y)
    requires x.quantity > 0.0 && y.quantity > 0.0
    ensures IsRow(db, pid, a + b, le, t, joint)
    ensures Joins(joint, x, y, t)
  {
    RowParts(db, pid, a, le, t, x);
    RowParts(db, pid, b, le, t, y);
    joint := JointRowExists(db, pid, a, b, le, t, x, y);
    JointTotals(db, pid, a, b, le, t, x, y, joint);
    JointBrokerTotal(db, pid, a, b, le, t, x, y, joint);
    RowParts(db, pid, a + b, le, t, joint);
  }

  /** Positive, in what decides a valuation: quantity, broker total, and the ticker's close if any. */
  predicate Positive(h: Holding, t: Ticker, prices: Prices) {
    h.quantity > 0.0 && (h.brokerValue.Some? ==> h.brokerValue.value > 0.0) && (t in prices ==> prices[t].close > 0.0)
  }

  /** The value in its own currency depends on nothing but ticker, quantity and the broker's figures. */
  lemma SameFiguresSameWorth(h: Holding, h': Holding, prices: Prices, rates: Rates)
    requires h'.ticker == h.ticker && h'.quantity == h.quantity
    requires h'.brokerValue == h.brokerValue && h'.brokerPrice == h.brokerPrice
    ensures Valuable(UNVALUED, h, prices) <==> Valuable(UNVALUED, h', prices)
    ensures Valuable(UNVALUED, h, prices) ==>
      Valued(h, prices, rates).valueLocal == Valued(h', prices, rates).valueLocal
  {
  }

  lemma JoinedMixed(joint: Holding, l: Holding, s: Holding, t: Ticker, prices: Prices, rates: Rates)
    requires Joins(joint, l, s, t) && Positive(l, t, prices) && Positive(s, t, prices)
    requires l.brokerValue.None? && s.brokerValue.Some?
    ensures AddUp(l, s, joint, prices, rates)
       <==> && t in prices && Coherent(Product(prices[t].close, s.quantity), s.brokerValue.value)
            && Product(prices[t].close, l.quantity + s.quantity) <= 2.0 * s.brokerValue.value
  {
    SameFiguresSameWorth(joint, Consolidated(l, s), prices, rates);
    MixedSourcesAddUpExactly(l, s, prices, rates);
  }

  lemma JoinedSnapshots(joint: Holding, x: Holding, y: Holding, t: Ticker, prices: Prices, rates: Rates)
    requires Joins(joint, x, y, t) && Positive(x, t, prices) && Positive(y, t, prices)
    requires x.brokerValue.Some? && y.brokerValue.Some?
    ensures AddUp(x, y, joint, prices, rates) <==> t !in prices || HoldTogether(x, y, prices[t].close)
  {
    SameFiguresSameWorth(joint, Consolidated(x, y), prices, rates);
    SnapshotsAddUpExactly(x, y, prices, rates);
  }

  /** A ticker held through accounts without a broker total (ledgers) and through accounts with
      one (snapshots) is worth the same consolidated as apart exactly when it has a cached close, the
      snapshot shares are in scale with the reported total and all shares together are worth at
      most twice that. */
  lemma ConsolidatedValueIsTheSumExactly(
    db: Db, pid: int, ledgers: set<Acct>, snapshots: set<Acct>, le: Order, t: Ticker, l: Holding, s: Holding,
    prices: Prices, rates: Rates)
    returns (joint: Holding)
    requires ledgers !! snapshots && IsRow(db, pid, ledgers, le, t, l) && IsRow(db, pid, snapshots, le, t, s)
    requires Positive(l, t, prices) && Positive(s, t, prices) && l.brokerValue.None? && s.brokerValue.Some?
    ensures IsRow(db, pid, ledgers + snapshots, le, t, joint)
    ensures AddUp(l, s, joint, prices, rates)
       <==> && t in prices && Coherent(Product(prices[t].close, s.quantity), s.brokerValue.value)
            && Product(prices[t].close, l.quantity + s.quantity) <= 2.0 * s.brokerValue.value
  {
    joint := JointRow(db, pid, ledgers, snapshots, le, t, l, s);
    JoinedMixed(joint, l, s, t, prices, rates);
  }

  /** The same for two sets of snapshot accounts, over the four cases of being in scale. */
  lemma ConsolidatedSnapshotsAddUpExactly(
    db: Db, pid: int, a: set<Acct>, b: set<Acct>, le: Order, t: Ticker, x: Holding, y: Holding,
    prices: Prices, rates: Rates)
    returns (joint: Holding)
    requires a !! b && IsRow(db, pid, a, le, t, x) && IsRow(db, pid, b, le, t, y)
    requires Positive(x, t, prices) && Positive(y, t, prices) && x.brokerValue.Some? && y.brokerValue.Some?
    ensures IsRow(db, pid, a + b, le, t, joint)
    ensures AddUp(x, y, joint, prices, rates) <==> t !in prices || HoldTogether(x, y, prices[t].close)
  {
    joint := JointRow(db, pid, a, b, le, t, x, y);
    JoinedSnapshots(joint, x, y, t, prices, rates);
  }

  /** Without a cached close the readers' consolidated row carries the snapshot part's value over all
      shares, and the ledger part's cost as a loss. */
  lemma ConsolidatedWithoutClose(
    db: Db, pid: int, ledgers: set<Acct>, snapshots: set<Acct>, le: Order, t: Ticker, l: Holding, s: Holding,
    prices: Prices, rates: Rates)
    returns (joint: Holding)
    requires ledgers !! snapshots && IsRow(db, pid, ledgers, le, t, l) && IsRow(db, pid, snapshots, le, t, s)
    requires Positive(l, t, prices) && Positive(s, t, prices) && l.brokerValue.None? && s.brokerValue.Some?
    requires t !in prices
    ensures IsRow(db, pid, ledgers + snapshots, le, t, joint)
    ensures Valuable(UNVALUED, l, prices) && Valuable(UNVALUED, s, prices) && Valuable(UNVALUED, joint, prices)
    ensures var held, all := Valued(s, prices, rates), Valued(joint, prices, rates);
      && Valued(l, prices, rates).valueLocal == None && held.valueLocal == all.valueLocal == s.brokerValue
      && all.lastPrice == Some(Quotient(s.brokerValue.value, l.quantity + s.quantity))
      && (joint.currency == s.currency && s.currency in rates ==>
            held.gain.Some? && all.gain.Some?
            && all.gain.value == held.gain.value - Product(l.costBasis, rates[s.currency]))
  {
    joint := JointRow(db, pid, ledgers, snapshots, le, t, l, s);
    WorthWithoutClose(joint, prices, rates);
    NoCloseDilutes(l, s, joint.(currency := s.currency), prices, rates);
  }
}
