/** Histories in whole units: the relief tolerance of portfolio_analytics/domain/ledger.py never
    comes into play, so the ledger is exact and fails exactly when the record overdraws. */
module WholeUnitLedger {
  import opened Wrappers
  import opened FifoLedger
  import opened LedgerReplay
  import opened LedgerAccounting
  import Sorting

  predicate MovesShares(x: Txn) {
    !CashOnly(x.kind) && x.quantity > 0.0
  }

  /** A split by a whole ratio, or any other movement of a whole multiple of the unit. */
  ghost predicate MovesWhole(x: Txn, unit: real) {
    if x.kind.Split? then Multiple(x.quantity, 1.0) else Multiple(x.quantity, unit)
  }

  /** Shares move in whole multiples of a unit above the tolerance, and split by whole ratios. */
  ghost predicate WholeUnits(txns: seq<Txn>, unit: real) {
    unit > EPS && forall x | x in txns && MovesShares(x) :: MovesWhole(x, unit)
  }

  ghost predicate WholeLots(lots: seq<Lot>, unit: real) {
    PositiveLots(lots) && forall lot | lot in lots :: Multiple(lot.quantity, unit)
  }

  ghost predicate WholeBooks(b: Books, unit: real) {
    forall t :: WholeLots(LotsOf(b, t), unit)
  }

  // ---------- One step ----------

  lemma SaleLeavesNothing(b: Books, x: Txn, unit: real)
    requires Apply(b, x).Ok? && Sends(x) && x.quantity > 0.0
    requires WholeUnits([x], unit) && WholeLots(LotsOf(b, x.ticker), unit)
    ensures Residue(b, x) == 0.0 || x.kind.TransferOut?
    ensures var r := Relief(LotsOf(b, x.ticker), x.quantity, x.when, if x.kind.Sell? then NetPrice(x) else 0.0);
      WholeLots(r.left, unit) && Shares(r.left) == Shares(LotsOf(b, x.ticker)) - x.quantity
  {
    var lots, pps := LotsOf(b, x.ticker), if x.kind.Sell? then NetPrice(x) else 0.0;
    assert x in [x];
    SendsWithin(b, x);
    ReliefIsTight(lots, x.quantity, x.when, pps);
    WholeUnitsRelieveExactly(lots, x.quantity, x.when, pps, unit);
    ReliefConservesShares(lots, x.quantity, x.when, pps);
  }

  lemma LotOpened(lots: seq<Lot>, lot: Lot, unit: real)
    requires WholeLots(lots, unit) && lot.quantity > 0.0 && Multiple(lot.quantity, unit)
    ensures WholeLots(lots + [lot], unit) && Shares(lots + [lot]) == Shares(lots) + lot.quantity
  {
    OpenMoves(lots, lot);
  }

  lemma TimesTimes(m: int, n: int, unit: real, x: real, r: real)
    requires x == Times(m, unit) && r == Times(n, 1.0)
    ensures x * r == Times(m * n, unit)
  {
    var p := m * n;
    assert r == n as real && p as real == m as real * n as real;
    assert x * r == (m as real * n as real) * unit;
  }

  lemma LotSplitsWhole(lot: Lot, ratio: real, unit: real)
    requires ratio > 0.0 && Multiple(ratio, 1.0) && Multiple(lot.quantity, unit)
    ensures Multiple(ScaledLot(lot, ratio).quantity, unit)
  {
    var m: int :| lot.quantity == Times(m, unit);
    var n: int :| ratio == Times(n, 1.0);
    TimesTimes(m, n, unit, lot.quantity, ratio);
  }

  lemma {:induction false} ScaledLots(lots: seq<Lot>, ratio: real, lot: Lot)
    requires ratio > 0.0 && lot in Scale(lots, ratio)
    ensures exists whole :: whole in lots && lot == ScaledLot(whole, ratio)
    decreases |lots|
  {
    if lot == ScaledLot(lots[0], ratio) {
      assert lots[0] in lots;
    } else {
      ScaledLots(lots[1..], ratio, lot);
    }
  }

  /** A whole ratio keeps whole multiples whole. */
  lemma SplitIsWhole(lots: seq<Lot>, ratio: real, unit: real)
    requires ratio > 0.0 && Multiple(ratio, 1.0) && WholeLots(lots, unit)
    ensures WholeLots(Scale(lots, ratio), unit) && Shares(Scale(lots, ratio)) == Shares(lots) * ratio
  {
    SplitKeepsBasis(lots, ratio);
    ScaleKeepsPositive(lots, ratio);
    forall lot | lot in Scale(lots, ratio) ensures Multiple(lot.quantity, unit) {
      ScaledLots(lots, ratio, lot);
      var whole :| whole in lots && lot == ScaledLot(whole, ratio);
      LotSplitsWhole(whole, ratio, unit);
    }
  }

  /** What one movement does to a ticker's lots stays whole and follows the record. */
  ghost predicate StaysWhole(lots: seq<Lot>, x: Txn, unit: real) {
    && WholeLots(StepLots(lots, x, x.ticker), unit)
    && Shares(StepLots(lots, x, x.ticker)) == Recorded(Shares(lots), x, x.ticker)
  }

  lemma SendStaysWhole(b: Books, x: Txn, unit: real)
    requires Apply(b, x).Ok? && Sends(x) && x.quantity > 0.0
    requires WholeUnits([x], unit) && WholeLots(LotsOf(b, x.ticker), unit)
    ensures StaysWhole(LotsOf(b, x.ticker), x, unit)
  {
    SaleLeavesNothing(b, x, unit);
  }

  lemma SplitStaysWhole(lots: seq<Lot>, x: Txn, unit: real)
    requires x.kind.Split? && x.quantity > 0.0 && Multiple(x.quantity, 1.0) && WholeLots(lots, unit)
    ensures StaysWhole(lots, x, unit)
  {
    SplitIsWhole(lots, x.quantity, unit);
    SplitTerms(lots, x, Shares(lots), 0.0);
  }

  lemma OpenStaysWhole(lots: seq<Lot>, x: Txn, unit: real)
    requires MovesShares(x) && !Sends(x) && !x.kind.Split? && Multiple(x.quantity, unit) && WholeLots(lots, unit)
    ensures StaysWhole(lots, x, unit)
  {
    LotOpened(lots, StepLots(lots, x, x.ticker)[|lots|], unit);
  }

  lemma WholeStep(b: Books, x: Txn, b': Books, t: Ticker, unit: real)
    requires Apply(b, x) == Ok(b') && WholeUnits([x], unit) && WholeLots(LotsOf(b, t), unit)
    ensures WholeLots(LotsOf(b', t), unit)
    ensures x.ticker == t && x.kind.Sell? && x.quantity > 0.0 ==> Residue(b, x) == 0.0
    ensures Shares(LotsOf(b', t)) == Recorded(Shares(LotsOf(b, t)), x, t)
  {
    var lots := LotsOf(b, t);
    assert x in [x];
    LotsAfter(b, x, b', t);
    if x.ticker == t && MovesShares(x) {
      if Sends(x) {
        SaleLeavesNothing(b, x, unit);
        SendStaysWhole(b, x, unit);
      } else if x.kind.Split? {
        SplitStaysWhole(lots, x, unit);
      } else {
        OpenStaysWhole(lots, x, unit);
      }
    }
  }

  // ---------- A whole history ----------

  ghost predicate NoResidue(b: Books, txns: seq<Txn>)
    requires Replay(b, txns).Ok?
    decreases |txns|
  {
    |txns| > 0 ==>
      && (txns[0].kind.Sell? && txns[0].quantity > 0.0 ==> Residue(b, txns[0]) == 0.0)
      && NoResidue(Apply(b, txns[0]).value, txns[1..])
  }

  lemma FirstAndRest(txns: seq<Txn>, unit: real)
    requires |txns| > 0 && WholeUnits(txns, unit)
    ensures WholeUnits([txns[0]], unit) && WholeUnits(txns[1..], unit)
  {
    assert txns[0] in txns && forall x | x in txns[1..] :: x in txns;
  }

  /** In whole units the ledger is exact: it holds precisely the recorded shares of every ticker
      and no sale leaves a residue. */
  lemma {:induction false} WholeUnitsAreExact(b: Books, txns: seq<Txn>, b': Books, unit: real)
    requires Replay(b, txns) == Ok(b') && WholeUnits(txns, unit) && WholeBooks(b, unit)
    ensures WholeBooks(b', unit) && NoResidue(b, txns)
    ensures forall t :: Shares(LotsOf(b', t)) == RecordedAfter(Shares(LotsOf(b, t)), txns, t)
    decreases |txns|
  {
    if |txns| > 0 {
      var x, next := txns[0], Apply(b, txns[0]).value;
      FirstAndRest(txns, unit);
      forall t
        ensures WholeLots(LotsOf(next, t), unit)
             && Shares(LotsOf(next, t)) == Recorded(Shares(LotsOf(b, t)), x, t)
      {
        WholeStep(b, x, next, t, unit);
      }
      WholeStep(b, x, next, x.ticker, unit);
      WholeUnitsAreExact(next, txns[1..], b', unit);
    }
  }

  // ---------- When a whole-unit history fails ----------

  lemma MultiplesAdd(x: real, y: real, unit: real)
    requires Multiple(x, unit) && Multiple(y, unit)
    ensures Multiple(x + y, unit)
  {
    var m: int :| x == Times(m, unit);
    var n: int :| y == Times(n, unit);
    assert x + y == Times(m + n, unit);
  }

  lemma {:induction false} WholeShares(lots: seq<Lot>, unit: real)
    requires WholeLots(lots, unit)
    ensures Multiple(Shares(lots), unit)
    decreases |lots|
  {
    if |lots| == 0 {
      assert 0.0 == Times(0, unit);
    } else {
      assert lots[0] in lots && forall lot | lot in lots[1..] :: lot in lots;
      WholeShares(lots[1..], unit);
      MultiplesAdd(lots[0].quantity, Shares(lots[1..]), unit);
    }
  }

  /** Between whole multiples the tolerance decides nothing. */
  lemma ExceedsExactly(b: Books, x: Txn, unit: real)
    requires WholeUnits([x], unit) && WholeLots(LotsOf(b, x.ticker), unit) && MovesShares(x) && !x.kind.Split?
    ensures Exceeds(b, x) <==> x.quantity > Shares(LotsOf(b, x.ticker))
  {
    var over := x.quantity - Shares(LotsOf(b, x.ticker));
    assert x in [x];
    WholeShares(LotsOf(b, x.ticker), unit);
    MultiplesSubtract(x.quantity, Shares(LotsOf(b, x.ticker)), unit);
    if -EPS <= over <= EPS {
      SmallMultipleIsZero(over, unit);
    }
  }

  /** Transaction `i` sells or sends more than the record before it holds. */
  predicate OverdrawsAt(txns: seq<Txn>, i: nat) {
    && i < |txns| && Sends(txns[i]) && txns[i].quantity > 0.0
    && txns[i].quantity > RecordedAfter(0.0, txns[..i], txns[i].ticker)
  }

  lemma {:induction false} FailingPrefix(b: Books, txns: seq<Txn>, i: nat)
    requires i <= |txns| && Replay(b, txns[..i]).Err?
    ensures Replay(b, txns).Err?
    decreases |txns|
  {
    if i > 0 && Apply(b, txns[0]).Ok? {
      assert txns[..i][1..] == txns[1..][..i - 1];
      FailingPrefix(Apply(b, txns[0]).value, txns[1..], i - 1);
    }
  }

  lemma OversellIsOverdraw(txns: seq<Txn>, i: nat, unit: real)
    requires WholeUnits(txns, unit) && i < |txns| && Replay(EMPTY, txns[..i]).Ok?
    ensures OversellsAt(EMPTY, txns, i) <==> OverdrawsAt(txns, i)
  {
    var held := Replay(EMPTY, txns[..i]).value;
    assert txns[i] in txns && forall x | x in txns[..i] :: x in txns;
    WholeUnitsAreExact(EMPTY, txns[..i], held, unit);
    if MovesShares(txns[i]) && Sends(txns[i]) {
      ExceedsExactly(held, txns[i], unit);
    }
    var t := txns[i].ticker;
    assert Shares(LotsOf(held, t)) == RecordedAfter(Shares(LotsOf(EMPTY, t)), txns[..i], t);
  }

  /** In whole units a replay fails exactly when some sale or transfer out exceeds
      what the transactions before it add up to. */
  lemma FailsExactlyOnOverdraw(txns: seq<Txn>, unit: real)
    requires WholeUnits(txns, unit)
    ensures Replay(EMPTY, txns).Err? <==> exists i: nat :: OverdrawsAt(txns, i)
  {
    FailsExactlyOnOversell(EMPTY, txns);
    if i: nat :| OversellsAt(EMPTY, txns, i) {
      OversellIsOverdraw(txns, i, unit);
    }
    if i: nat :| OverdrawsAt(txns, i) {
      if Replay(EMPTY, txns[..i]).Err? {
        FailingPrefix(EMPTY, txns, i);
      } else {
        OversellIsOverdraw(txns, i, unit);
      }
    }
  }

  /** So a ledger is built exactly when its history, in date order, never overdraws. */
  lemma BuiltExactlyWhenCovered(txns: seq<Txn>, unit: real)
    requires WholeUnits(txns, unit)
    ensures var ordered := Sorting.Sort(txns, ByWhen());
      Built(txns).Ok? <==> forall i: nat | i < |ordered| :: !OverdrawsAt(ordered, i)
  {
    var ordered := Sorting.Sort(txns, ByWhen());
    Sorting.SortPermutes(txns, ByWhen());
    forall x | x in ordered ensures x in txns {
      assert x in multiset(ordered);
    }
    FailsExactlyOnOverdraw(ordered, unit);
  }
}
