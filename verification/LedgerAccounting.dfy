/** What a replay conserves: shares, money and lot order over a whole history. */
module LedgerAccounting {
  import opened Arithmetic
  import opened Wrappers
  import opened FifoLedger
  import opened LedgerReplay
  import opened Sums
  import Sorting

  // ---------- What every step does to one ticker's lots ----------

  lemma LotsAfter(b: Books, x: Txn, b': Books, t: Ticker)
    requires Apply(b, x) == Ok(b')
    ensures LotsOf(b', t) == StepLots(LotsOf(b, t), x, t)
  {
  }

  /** One transaction's effect on the lots of ticker `t`. */
  function StepLots(lots: seq<Lot>, x: Txn, t: Ticker): seq<Lot> {
    if x.ticker != t || CashOnly(x.kind) || x.quantity <= 0.0 then lots
    else if x.kind.Sell? then Relief(lots, x.quantity, x.when, NetPrice(x)).left
    else if x.kind.TransferOut? then Relief(lots, x.quantity, x.when, 0.0).left
    else if x.kind.Split? then Scale(lots, x.quantity)
    else lots + [Lot(t, x.when, x.quantity, if x.kind.TransferIn? then TransferCost(x) else PurchaseCost(x))]
  }

  predicate Sends(x: Txn) {
    x.kind.Sell? || x.kind.TransferOut?
  }

  lemma SendsWithin(b: Books, x: Txn)
    requires Apply(b, x).Ok? && Sends(x) && x.quantity > 0.0
    ensures x.quantity <= Shares(LotsOf(b, x.ticker)) + EPS
  {
  }

  lemma ScaleOne(lot: Lot, ratio: real)
    requires ratio > 0.0
    ensures LotBasis(ScaledLot(lot, ratio)) == LotBasis(lot)
    ensures lot.quantity > 0.0 ==> ScaledLot(lot, ratio).quantity > 0.0
  {
    assert ratio * (lot.costPerShare / ratio) == lot.costPerShare;
    assert (lot.quantity * ratio) * (lot.costPerShare / ratio) == lot.quantity * (ratio * (lot.costPerShare / ratio));
  }

  /** A split multiplies the shares and leaves the total basis as it was. */
  lemma {:induction false} SplitKeepsBasis(lots: seq<Lot>, ratio: real)
    requires ratio > 0.0
    ensures Shares(Scale(lots, ratio)) == Shares(lots) * ratio
    ensures Basis(Scale(lots, ratio)) == Basis(lots)
    decreases |lots|
  {
    if |lots| > 0 {
      SplitKeepsBasis(lots[1..], ratio);
      ScaleOne(lots[0], ratio);
      OneLot(ScaledLot(lots[0], ratio), Scale(lots[1..], ratio));
      Distribute(ratio, lots[0].quantity, Shares(lots[1..]));
    }
  }

  lemma {:induction false} ScaleKeepsPositive(lots: seq<Lot>, ratio: real)
    requires ratio > 0.0 && PositiveLots(lots)
    ensures PositiveLots(Scale(lots, ratio)) && |Scale(lots, ratio)| == |lots|
    decreases |lots|
  {
    if |lots| > 0 {
      assert lots[0] in lots && forall x | x in lots[1..] :: x in lots;
      ScaleOne(lots[0], ratio);
      ScaleKeepsPositive(lots[1..], ratio);
    }
  }

  lemma StepKeepsPositive(b: Books, x: Txn, b': Books, t: Ticker)
    requires Apply(b, x) == Ok(b') && PositiveLots(LotsOf(b, t))
    ensures PositiveLots(LotsOf(b', t))
  {
    LotsAfter(b, x, b', t);
    if x.ticker == t && !CashOnly(x.kind) && x.quantity > 0.0 {
      if Sends(x) {
        SendsWithin(b, x);
        ReliefIsTight(LotsOf(b, t), x.quantity, x.when, if x.kind.Sell? then NetPrice(x) else 0.0);
      } else if x.kind.Split? {
        ScaleKeepsPositive(LotsOf(b, t), x.quantity);
      }
    }
  }

  // ---------- Shares ----------

  /** Shares held by the record alone: bought and received less sold and sent, times splits. */
  function Recorded(held: real, x: Txn, t: Ticker): real {
    if x.ticker != t || CashOnly(x.kind) || x.quantity <= 0.0 then held
    else if Sends(x) then held - x.quantity
    else if x.kind.Split? then held * x.quantity
    else held + x.quantity
  }

  /** How far the tolerance may have moved the ledger from the record. */
  function Slack(slack: real, x: Txn, t: Ticker): real {
    if x.ticker != t || CashOnly(x.kind) || x.quantity <= 0.0 then slack
    else if Sends(x) then slack + EPS
    else if x.kind.Split? then slack * x.quantity
    else slack
  }

  function RecordedAfter(held: real, txns: seq<Txn>, t: Ticker): real
    decreases |txns|
  {
    if |txns| == 0 then held else RecordedAfter(Recorded(held, txns[0], t), txns[1..], t)
  }

  function SlackAfter(slack: real, txns: seq<Txn>, t: Ticker): real
    decreases |txns|
  {
    if |txns| == 0 then slack else SlackAfter(Slack(slack, txns[0], t), txns[1..], t)
  }

  predicate Near(x: real, y: real, slack: real) {
    -slack <= x - y <= slack
  }

  lemma NearScales(x: real, y: real, slack: real, r: real, x': real, y': real, slack': real)
    requires Near(x, y, slack) && r > 0.0
    requires x' == x * r && y' == y * r && slack' == slack * r
    ensures Near(x', y', slack')
  {
    var d := x - y;
    assert x' - y' == d * r;
    assert d * r <= slack * r && -slack * r <= d * r;
  }

  lemma SplitTerms(lots: seq<Lot>, x: Txn, held: real, slack: real)
    requires x.kind.Split? && x.quantity > 0.0
    ensures Shares(StepLots(lots, x, x.ticker)) == Shares(lots) * x.quantity
    ensures Recorded(held, x, x.ticker) == held * x.quantity && Slack(slack, x, x.ticker) == slack * x.quantity
  {
    SplitKeepsBasis(lots, x.quantity);
  }

  lemma SplitMoves(lots: seq<Lot>, x: Txn, held: real, slack: real)
    requires x.kind.Split? && x.quantity > 0.0 && Near(Shares(lots), held, slack)
    ensures Near(Shares(StepLots(lots, x, x.ticker)), Recorded(held, x, x.ticker), Slack(slack, x, x.ticker))
  {
    SplitTerms(lots, x, held, slack);
    NearScales(Shares(lots), held, slack, x.quantity, Shares(StepLots(lots, x, x.ticker)),
               Recorded(held, x, x.ticker), Slack(slack, x, x.ticker));
  }

  lemma SendMoves(lots: seq<Lot>, x: Txn, held: real, slack: real)
    requires Sends(x) && 0.0 < x.quantity <= Shares(lots) + EPS && PositiveLots(lots) && Near(Shares(lots), held, slack)
    ensures Near(Shares(StepLots(lots, x, x.ticker)), Recorded(held, x, x.ticker), Slack(slack, x, x.ticker))
  {
    var pps := if x.kind.Sell? then NetPrice(x) else 0.0;
    ReliefIsTight(lots, x.quantity, x.when, pps);
    ReliefConservesShares(lots, x.quantity, x.when, pps);
  }

  lemma OpenMoves(lots: seq<Lot>, lot: Lot)
    ensures Shares(lots + [lot]) == Shares(lots) + lot.quantity
  {
    LotsAppend(lots, [lot]);
    OneLot(lot, []);
    assert [lot] + [] == [lot];
  }

  lemma SharesStep(b: Books, x: Txn, b': Books, t: Ticker, held: real, slack: real)
    requires Apply(b, x) == Ok(b') && PositiveLots(LotsOf(b, t))
    requires Near(Shares(LotsOf(b, t)), held, slack)
    ensures Near(Shares(LotsOf(b', t)), Recorded(held, x, t), Slack(slack, x, t))
  {
    var lots := LotsOf(b, t);
    LotsAfter(b, x, b', t);
    if x.ticker == t && !CashOnly(x.kind) && x.quantity > 0.0 {
      if Sends(x) {
        SendsWithin(b, x);
        SendMoves(lots, x, held, slack);
      } else if x.kind.Split? {
        SplitMoves(lots, x, held, slack);
      } else {
        OpenMoves(lots, LotsOf(b', t)[|lots|]);
      }
    }
  }

  /** Over any history the shares held are what the record says, within one tolerance for each
      sale or transfer out (rescaled by the splits after it). */
  lemma {:induction false} SharesFollowTheRecord(
    b: Books, txns: seq<Txn>, b': Books, t: Ticker, held: real, slack: real)
    requires Replay(b, txns) == Ok(b') && PositiveLots(LotsOf(b, t))
    requires Near(Shares(LotsOf(b, t)), held, slack)
    ensures PositiveLots(LotsOf(b', t))
    ensures Near(Shares(LotsOf(b', t)), RecordedAfter(held, txns, t), SlackAfter(slack, txns, t))
    decreases |txns|
  {
    if |txns| > 0 {
      var next := Apply(b, txns[0]).value;
      StepKeepsPositive(b, txns[0], next, t);
      SharesStep(b, txns[0], next, t, held, slack);
      SharesFollowTheRecord(next, txns[1..], b', t, Recorded(held, txns[0], t), Slack(slack, txns[0], t));
    }
  }

  // ---------- Money ----------

  /** Cash plus the basis of ticker `t`'s open lots less the gains realized so far. */
  function TickerValue(b: Books, t: Ticker): real {
    b.cash + Basis(LotsOf(b, t)) - (Proceeds(b.realized) - ClosedBasis(b.realized))
  }

  /** What changes the book value: external cash, income and fees, basis moved in or out in kind,
      and what the relief tolerance left over. Purchases, sales and splits only move it around. */
  function External(b: Books, x: Txn): real {
    if CashOnly(x.kind) then CashEffect(x)
    else if x.quantity <= 0.0 then 0.0
    else if x.kind.TransferIn? then x.quantity * TransferCost(x)
    else if x.kind.TransferOut? then
      var r := Relief(LotsOf(b, x.ticker), x.quantity, x.when, 0.0);
      -(ClosedBasis(r.gains) + r.dustBasis)
    else if x.kind.Sell? then Residue(b, x)
    else 0.0
  }

  /** What a sale's tolerance leaves over: cash for shares not found, less basis dropped as dust. */
  function Residue(b: Books, x: Txn): real
    requires x.quantity > 0.0
  {
    var r := Relief(LotsOf(b, x.ticker), x.quantity, x.when, NetPrice(x));
    r.unclosed * NetPrice(x) - r.dustBasis
  }

  lemma PurchaseCostsItsCash(x: Txn)
    requires x.quantity > 0.0
    ensures x.quantity * PurchaseCost(x) == CashOut(x)
  {
    assert x.quantity * (x.fees / x.quantity) == x.fees;
    assert x.quantity * (x.amount / x.quantity) == x.amount;
    assert x.quantity * (x.price + x.fees / x.quantity) == x.quantity * x.price + x.quantity * (x.fees / x.quantity);
  }

  lemma SaleCash(x: Txn, unclosed: real)
    requires x.quantity > 0.0
    ensures x.quantity * x.price - x.fees == (x.quantity - unclosed) * NetPrice(x) + unclosed * NetPrice(x)
  {
    assert x.quantity * (x.fees / x.quantity) == x.fees;
    assert x.quantity * NetPrice(x) == x.quantity * x.price - x.quantity * (x.fees / x.quantity);
    Distribute(NetPrice(x), x.quantity - unclosed, unclosed);
  }

  lemma OpenedBasis(b: Books, x: Txn, cost: real)
    requires x.quantity > 0.0
    ensures Basis(LotsOf(Opened(b, x, cost), x.ticker)) == Basis(LotsOf(b, x.ticker)) + x.quantity * cost
  {
    var lot := Lot(x.ticker, x.when, x.quantity, cost);
    LotsAppend(LotsOf(b, x.ticker), [lot]);
    OneLot(lot, []);
    assert [lot] + [] == [lot];
  }

  lemma BooksAfterSale(b: Books, x: Txn, r: Relieved)
    requires x.kind.Sell? && x.quantity > 0.0 && Apply(b, x).Ok?
    requires r == Relief(LotsOf(b, x.ticker), x.quantity, x.when, NetPrice(x))
    ensures TickerValue(Sold(b, x), x.ticker)
         == b.cash + (x.quantity * x.price - x.fees) + Basis(r.left)
            - (Proceeds(b.realized) + Proceeds(r.gains) - ClosedBasis(b.realized) - ClosedBasis(r.gains))
  {
    GainsAppend(b.realized, r.gains);
    LotsAfter(b, x, Sold(b, x), x.ticker);
  }

  lemma SaleResidue(b: Books, x: Txn, r: Relieved)
    requires x.quantity > 0.0
    requires r == Relief(LotsOf(b, x.ticker), x.quantity, x.when, NetPrice(x))
    ensures x.quantity * x.price - x.fees == Proceeds(r.gains) + Residue(b, x) + r.dustBasis
  {
    ReliefProceeds(LotsOf(b, x.ticker), x.quantity, x.when, NetPrice(x));
    SaleCash(x, r.unclosed);
  }

  lemma SaleStep(b: Books, x: Txn)
    requires x.kind.Sell? && x.quantity > 0.0 && Apply(b, x).Ok?
    ensures TickerValue(Sold(b, x), x.ticker) == TickerValue(b, x.ticker) + Residue(b, x)
  {
    var r := Relief(LotsOf(b, x.ticker), x.quantity, x.when, NetPrice(x));
    ReliefConservesBasis(LotsOf(b, x.ticker), x.quantity, x.when, NetPrice(x));
    BooksAfterSale(b, x, r);
    SaleResidue(b, x, r);
  }

  lemma SendStep(b: Books, x: Txn)
    requires x.kind.TransferOut? && x.quantity > 0.0 && Apply(b, x).Ok?
    ensures TickerValue(SentOut(b, x), x.ticker) == TickerValue(b, x.ticker) + External(b, x)
  {
    ReliefConservesBasis(LotsOf(b, x.ticker), x.quantity, x.when, 0.0);
    LotsAfter(b, x, SentOut(b, x), x.ticker);
  }

  lemma ValueStep(b: Books, x: Txn, b': Books)
    requires Apply(b, x) == Ok(b')
    ensures TickerValue(b', x.ticker) == TickerValue(b, x.ticker) + External(b, x)
  {
    if !CashOnly(x.kind) && x.quantity > 0.0 {
      if x.kind.Sell? {
        SaleStep(b, x);
      } else if x.kind.TransferOut? {
        SendStep(b, x);
      } else if x.kind.Split? {
        LotsAfter(b, x, b', x.ticker);
        SplitKeepsBasis(LotsOf(b, x.ticker), x.quantity);
      } else if x.kind.TransferIn? {
        OpenedBasis(b, x, TransferCost(x));
      } else {
        OpenedBasis(b, x, PurchaseCost(x));
        PurchaseCostsItsCash(x);
      }
    }
  }

  ghost function ExternalTotal(b: Books, txns: seq<Txn>): real
    requires Replay(b, txns).Ok?
    decreases |txns|
  {
    if |txns| == 0 then 0.0 else External(b, txns[0]) + ExternalTotal(Apply(b, txns[0]).value, txns[1..])
  }

  /** The basis of every ticker's open lots. */
  ghost function Bases(b: Books): map<Ticker, real> {
    map t | t in b.openLots :: Basis(b.openLots[t])
  }

  /** Cash plus the basis of all open lots less the gains realized so far. */
  ghost function BookValue(b: Books): real {
    b.cash + SumOf(Bases(b)) - (Proceeds(b.realized) - ClosedBasis(b.realized))
  }

  lemma OneTickerApart(b: Books, t: Ticker)
    ensures BookValue(b) == TickerValue(b, t) + SumOf(Bases(b) - {t})
  {
    if t in b.openLots {
      SumRemove(Bases(b), t);
    } else {
      assert Bases(b) - {t} == Bases(b);
    }
  }

  lemma OthersStay(b: Books, x: Txn, b': Books)
    requires Apply(b, x) == Ok(b')
    ensures Bases(b') - {x.ticker} == Bases(b) - {x.ticker}
  {
    var before, after := Bases(b) - {x.ticker}, Bases(b') - {x.ticker};
    forall t ensures t in after <==> t in before {}
    forall t | t in before ensures after[t] == before[t] {
      LotsAfter(b, x, b', t);
    }
  }

  /** Money is conserved over any history, of any tickers: cash plus open basis less realized gains
      moves only by external flows, income, fees and basis moved in kind, and by what the relief
      tolerance left over. */
  lemma {:induction false} MoneyIsConserved(b: Books, txns: seq<Txn>, b': Books)
    requires Replay(b, txns) == Ok(b')
    ensures BookValue(b') == BookValue(b) + ExternalTotal(b, txns)
    decreases |txns|
  {
    if |txns| > 0 {
      var x, next := txns[0], Apply(b, txns[0]).value;
      ValueStep(b, x, next);
      OthersStay(b, x, next);
      OneTickerApart(b, x.ticker);
      OneTickerApart(next, x.ticker);
      MoneyIsConserved(next, txns[1..], b');
    }
  }

  // ---------- First in, first out ----------

  ghost predicate NoLaterThan(lots: seq<Lot>, day: int) {
    forall lot | lot in lots :: lot.openDate <= day
  }

  lemma SuffixIsChronological(lots: seq<Lot>, left: seq<Lot>, k: nat, day: int)
    requires Suffix(lots, left, k) && Chronological(lots) && NoLaterThan(lots, day)
    ensures Chronological(left) && NoLaterThan(left, day)
  {
    forall i | 0 <= i < |left| ensures left[i].openDate <= day {
      assert lots[k + i] in lots;
    }
  }

  lemma {:induction false} ScaleKeepsDates(lots: seq<Lot>, ratio: real)
    requires ratio > 0.0
    ensures |Scale(lots, ratio)| == |lots|
    ensures forall i | 0 <= i < |lots| :: Scale(lots, ratio)[i].openDate == lots[i].openDate
    decreases |lots|
  {
    if |lots| > 0 {
      ScaleKeepsDates(lots[1..], ratio);
    }
  }

  lemma StepIsChronological(b: Books, x: Txn, b': Books, t: Ticker, day: int)
    requires Apply(b, x) == Ok(b') && day <= x.when
    requires Chronological(LotsOf(b, t)) && NoLaterThan(LotsOf(b, t), day)
    ensures Chronological(LotsOf(b', t)) && NoLaterThan(LotsOf(b', t), x.when)
  {
    var lots := LotsOf(b, t);
    LotsAfter(b, x, b', t);
    if x.ticker == t && !CashOnly(x.kind) && x.quantity > 0.0 {
      if Sends(x) {
        var k := ReliefLeavesSuffix(lots, x.quantity, x.when, if x.kind.Sell? then NetPrice(x) else 0.0);
        SuffixIsChronological(lots, LotsOf(b', t), k, x.when);
      } else if x.kind.Split? {
        ScaleKeepsDates(lots, x.quantity);
        forall i | 0 <= i < |lots| ensures LotsOf(b', t)[i].openDate <= x.when {
          assert lots[i] in lots;
        }
      } else {
        forall i | 0 <= i < |lots| ensures lots[i].openDate <= x.when {
          assert lots[i] in lots;
        }
      }
    }
  }

  /** Every ticker's open lots stay oldest first over any history in date order. */
  lemma {:induction false} LotsStayChronological(b: Books, txns: seq<Txn>, b': Books, t: Ticker, day: int)
    requires Replay(b, txns) == Ok(b') && Sorting.Sorted(txns, ByWhen())
    requires forall x | x in txns :: day <= x.when
    requires Chronological(LotsOf(b, t)) && NoLaterThan(LotsOf(b, t), day)
    ensures Chronological(LotsOf(b', t))
    decreases |txns|
  {
    if |txns| > 0 {
      assert txns[0] in txns;
      var next := Apply(b, txns[0]).value;
      StepIsChronological(b, txns[0], next, t, day);
      forall x | x in txns[1..] ensures txns[0].when <= x.when {
        var i :| 0 <= i < |txns| - 1 && txns[1..][i] == x;
        assert ByWhen()(txns[0], txns[i + 1]);
      }
      forall i, j | 0 <= i < j < |txns[1..]| ensures ByWhen()(txns[1..][i], txns[1..][j]) {
        assert ByWhen()(txns[i + 1], txns[j + 1]);
      }
      LotsStayChronological(next, txns[1..], b', t, txns[0].when);
    }
  }

  /** From chronological lots a relief closes no share while an older lot keeps one. */
  lemma OldestSharesGoFirst(lots: seq<Lot>, quantity: real, day: int, pps: real)
    requires Chronological(lots)
    ensures var r := Relief(lots, quantity, day, pps);
      forall gain, lot | gain in r.gains && lot in r.left :: gain.openDate <= lot.openDate
  {
    var r := Relief(lots, quantity, day, pps);
    var k := ReliefLeavesSuffix(lots, quantity, day, pps);
    ReliefClosesInOrder(lots, quantity, day, pps);
    forall gain, lot | gain in r.gains && lot in r.left ensures gain.openDate <= lot.openDate {
      var i :| 0 <= i < |r.gains| && r.gains[i] == gain;
      var j :| 0 <= j < |r.left| && r.left[j] == lot;
      assert Closes(lots[i], gain, day) && lot.openDate == lots[k + j].openDate;
      assert i <= k + j;
    }
  }
}
