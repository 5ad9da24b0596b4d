/** Replaying transactions into tax lots, first in first out:
    portfolio_analytics/domain/ledger.py. */
module FifoLedger {
  import opened Arithmetic

  type Ticker = string

  datatype TxnType =
    | Buy | Reinvestment | Sell | Dividend | Interest | Deposit | Withdrawal | Fee | Split | TransferIn | TransferOut

  datatype Txn = Txn(when: int, kind: TxnType, ticker: Ticker, quantity: real, price: real, amount: real, fees: real)

  datatype Lot = Lot(ticker: Ticker, openDate: int, quantity: real, costPerShare: real)

  datatype RealizedGain =
    RealizedGain(ticker: Ticker, openDate: int, closeDate: int, quantity: real, proceeds: real, costBasis: real)

  datatype Oversold = Oversold(ticker: Ticker, when: int, asked: real, held: real)

  datatype Books = Books(openLots: map<Ticker, seq<Lot>>, realized: seq<RealizedGain>, cash: real)

  const EPS := 0.000000001
  const EMPTY := Books(map[], [], 0.0)

  // ---------- Sums over lots and gains ----------

  function Shares(lots: seq<Lot>): real {
    if |lots| == 0 then 0.0 else lots[0].quantity + Shares(lots[1..])
  }

  function LotBasis(lot: Lot): real {
    lot.quantity * lot.costPerShare
  }

  function Basis(lots: seq<Lot>): real {
    if |lots| == 0 then 0.0 else LotBasis(lots[0]) + Basis(lots[1..])
  }

  function ClosedShares(gains: seq<RealizedGain>): real {
    if |gains| == 0 then 0.0 else gains[0].quantity + ClosedShares(gains[1..])
  }

  function ClosedBasis(gains: seq<RealizedGain>): real {
    if |gains| == 0 then 0.0 else gains[0].costBasis + ClosedBasis(gains[1..])
  }

  function Proceeds(gains: seq<RealizedGain>): real {
    if |gains| == 0 then 0.0 else gains[0].proceeds + Proceeds(gains[1..])
  }

  lemma {:induction false} LotsAppend(a: seq<Lot>, b: seq<Lot>)
    ensures Shares(a + b) == Shares(a) + Shares(b) && Basis(a + b) == Basis(a) + Basis(b)
    decreases |a|
  {
    if |a| == 0 {
      assert a + b == b;
    } else {
      assert (a + b)[1..] == a[1..] + b;
      LotsAppend(a[1..], b);
    }
  }

  lemma {:induction false} GainsAppend(a: seq<RealizedGain>, b: seq<RealizedGain>)
    ensures ClosedBasis(a + b) == ClosedBasis(a) + ClosedBasis(b) && Proceeds(a + b) == Proceeds(a) + Proceeds(b)
    decreases |a|
  {
    if |a| == 0 {
      assert a + b == b;
    } else {
      assert (a + b)[1..] == a[1..] + b;
      GainsAppend(a[1..], b);
    }
  }

  ghost predicate PositiveLots(lots: seq<Lot>) {
    forall lot | lot in lots :: lot.quantity > 0.0
  }

  lemma {:induction false} PositiveShares(lots: seq<Lot>)
    requires PositiveLots(lots)
    ensures Shares(lots) >= 0.0 && (Shares(lots) > 0.0 <==> lots != [])
    decreases |lots|
  {
    if |lots| > 0 {
      assert lots[0] in lots;
      PositiveShares(lots[1..]);
    }
  }

  // ---------- Relieving lots ----------

  /** The outcome of a relief: gains, lots left, shares not found, and the remainder of a lot
      too small to keep. */
  datatype Relieved = Relieved(gains: seq<RealizedGain>, left: seq<Lot>, unclosed: real, dust: real, dustBasis: real)

  function Close(lot: Lot, quantity: real, day: int, proceedsPerShare: real): RealizedGain {
    RealizedGain(lot.ticker, lot.openDate, day, quantity, quantity * proceedsPerShare, quantity * lot.costPerShare)
  }

  function Relief(lots: seq<Lot>, quantity: real, day: int, proceedsPerShare: real): Relieved {
    if quantity <= EPS || |lots| == 0 then Relieved([], lots, quantity, 0.0, 0.0)
    else
      var lot := lots[0];
      if lot.quantity <= quantity then
        var more := Relief(lots[1..], quantity - lot.quantity, day, proceedsPerShare);
        more.(gains := [Close(lot, lot.quantity, day, proceedsPerShare)] + more.gains)
      else
        var rest := lot.(quantity := lot.quantity - quantity);
        var gains := [Close(lot, quantity, day, proceedsPerShare)];
        if rest.quantity <= EPS then Relieved(gains, lots[1..], 0.0, rest.quantity, LotBasis(rest))
        else Relieved(gains, [rest] + lots[1..], 0.0, 0.0, 0.0)
  }

  method RelieveLots(lots: seq<Lot>, quantity: real, day: int, proceedsPerShare: real)
    returns (gains: seq<RealizedGain>, left: seq<Lot>)
    ensures gains == Relief(lots, quantity, day, proceedsPerShare).gains
    ensures left == Relief(lots, quantity, day, proceedsPerShare).left
  {
    gains, left := [], lots;
    var remaining := quantity;
    while remaining > EPS && left != []
      invariant gains + Relief(left, remaining, day, proceedsPerShare).gains
           == Relief(lots, quantity, day, proceedsPerShare).gains
      invariant Relief(left, remaining, day, proceedsPerShare).left
           == Relief(lots, quantity, day, proceedsPerShare).left
      decreases |left|, remaining > EPS
    {
      var lot := left[0];
      var closed := Min(lot.quantity, remaining);
      gains := gains + [Close(lot, closed, day, proceedsPerShare)];
      lot := lot.(quantity := lot.quantity - closed);
      remaining := remaining - closed;
      if lot.quantity <= EPS {
        left := left[1..];
      } else {
        left := [lot] + left[1..];
      }
    }
  }

  lemma CloseParts(lot: Lot, part: real)
    ensures LotBasis(lot) == part * lot.costPerShare + LotBasis(lot.(quantity := lot.quantity - part))
  {
  }

  lemma ProceedsParts(part: real, rest: real, pps: real)
    ensures part * pps + rest * pps == (part + rest) * pps
  {
  }

  lemma OneGain(gain: RealizedGain, more: seq<RealizedGain>)
    ensures ClosedShares([gain] + more) == gain.quantity + ClosedShares(more)
    ensures ClosedBasis([gain] + more) == gain.costBasis + ClosedBasis(more)
    ensures Proceeds([gain] + more) == gain.proceeds + Proceeds(more)
  {
    assert ([gain] + more)[1..] == more;
  }

  lemma OneLot(lot: Lot, more: seq<Lot>)
    ensures Shares([lot] + more) == lot.quantity + Shares(more) && Basis([lot] + more) == LotBasis(lot) + Basis(more)
  {
    assert ([lot] + more)[1..] == more;
  }

  /** No share is lost: what the lots held is what was closed, what is left, and the dust. */
  lemma {:induction false} ReliefConservesShares(lots: seq<Lot>, quantity: real, day: int, pps: real)
    ensures var r := Relief(lots, quantity, day, pps);
      Shares(lots) == ClosedShares(r.gains) + Shares(r.left) + r.dust && ClosedShares(r.gains) == quantity - r.unclosed
    decreases |lots|
  {
    if quantity > EPS && |lots| > 0 {
      var lot := lots[0];
      if lot.quantity <= quantity {
        ReliefConservesShares(lots[1..], quantity - lot.quantity, day, pps);
        OneGain(Close(lot, lot.quantity, day, pps), Relief(lots[1..], quantity - lot.quantity, day, pps).gains);
      } else {
        OneGain(Close(lot, quantity, day, pps), []);
        OneLot(lot.(quantity := lot.quantity - quantity), lots[1..]);
      }
    }
  }

  lemma PartConservesBasis(lot: Lot, later: seq<Lot>, part: real, day: int, pps: real)
    ensures var rest := lot.(quantity := lot.quantity - part);
      LotBasis(lot) + Basis(later) == ClosedBasis([Close(lot, part, day, pps)]) + Basis([rest] + later)
      && Basis([rest] + later) == LotBasis(rest) + Basis(later)
  {
    CloseParts(lot, part);
    OneGain(Close(lot, part, day, pps), []);
    OneLot(lot.(quantity := lot.quantity - part), later);
    assert [Close(lot, part, day, pps)] + [] == [Close(lot, part, day, pps)];
  }

  /** Nor any basis: it is in the gains, in what is left, or in the dust. */
  lemma {:induction false} ReliefConservesBasis(lots: seq<Lot>, quantity: real, day: int, pps: real)
    ensures var r := Relief(lots, quantity, day, pps);
      Basis(lots) == ClosedBasis(r.gains) + Basis(r.left) + r.dustBasis
    decreases |lots|
  {
    if quantity > EPS && |lots| > 0 {
      var lot := lots[0];
      if lot.quantity <= quantity {
        ReliefConservesBasis(lots[1..], quantity - lot.quantity, day, pps);
        OneGain(Close(lot, lot.quantity, day, pps), Relief(lots[1..], quantity - lot.quantity, day, pps).gains);
      } else {
        PartConservesBasis(lot, lots[1..], quantity, day, pps);
      }
    }
  }

  lemma {:induction false} ReliefProceeds(lots: seq<Lot>, quantity: real, day: int, pps: real)
    ensures var r := Relief(lots, quantity, day, pps);
      Proceeds(r.gains) == (quantity - r.unclosed) * pps
    decreases |lots|
  {
    if quantity > EPS && |lots| > 0 {
      var lot := lots[0];
      if lot.quantity <= quantity {
        var more := Relief(lots[1..], quantity - lot.quantity, day, pps);
        ReliefProceeds(lots[1..], quantity - lot.quantity, day, pps);
        ProceedsParts(lot.quantity, quantity - lot.quantity - more.unclosed, pps);
        OneGain(Close(lot, lot.quantity, day, pps), more.gains);
      } else {
        OneGain(Close(lot, quantity, day, pps), []);
      }
    }
  }

  /** The caller's check (`quantity <= available + EPS`) leaves at most `EPS` unclosed, and at
      most `EPS` is dropped as dust; both never happen at once. */
  lemma {:induction false} ReliefIsTight(lots: seq<Lot>, quantity: real, day: int, pps: real)
    requires PositiveLots(lots) && 0.0 <= quantity <= Shares(lots) + EPS
    ensures var r := Relief(lots, quantity, day, pps);
      0.0 <= r.unclosed <= EPS && 0.0 <= r.dust <= EPS && (r.dust > 0.0 ==> r.unclosed == 0.0) && PositiveLots(r.left)
    decreases |lots|
  {
    if quantity > EPS && |lots| > 0 {
      assert lots[0] in lots && forall lot | lot in lots[1..] :: lot in lots;
      if lots[0].quantity <= quantity {
        ReliefIsTight(lots[1..], quantity - lots[0].quantity, day, pps);
      }
    }
  }

  // ---------- First in, first out ----------

  ghost predicate Chronological(lots: seq<Lot>) {
    forall i, j | 0 <= i < j < |lots| :: lots[i].openDate <= lots[j].openDate
  }

  /** `left` is `lots` without its first `k`, the first one kept possibly reduced. */
  ghost predicate Suffix(lots: seq<Lot>, left: seq<Lot>, k: nat) {
    && k <= |lots| && |left| == |lots| - k
    && forall i | 0 <= i < |left| ::
         && left[i].ticker == lots[k + i].ticker && left[i].openDate == lots[k + i].openDate
         && left[i].costPerShare == lots[k + i].costPerShare
         && (i > 0 ==> left[i] == lots[k + i]) && left[i].quantity <= lots[k + i].quantity
  }

  predicate Closes(lot: Lot, gain: RealizedGain, day: int) {
    && gain.ticker == lot.ticker && gain.openDate == lot.openDate && gain.closeDate == day
    && gain.costBasis == gain.quantity * lot.costPerShare && gain.quantity <= lot.quantity
  }

  /** The i-th gain closes shares of the i-th lot at that lot's own date and cost, all of it
      unless it is the last one touched. */
  ghost predicate ClosesInOrder(lots: seq<Lot>, gains: seq<RealizedGain>, day: int) {
    && |gains| <= |lots|
    && (forall i | 0 <= i < |gains| :: Closes(lots[i], gains[i], day))
    && forall i | 0 <= i < |gains| - 1 :: gains[i].quantity == lots[i].quantity
  }

  lemma ClosesInFront(lot: Lot, lots: seq<Lot>, gain: RealizedGain, gains: seq<RealizedGain>, day: int)
    requires ClosesInOrder(lots, gains, day) && Closes(lot, gain, day) && gain.quantity == lot.quantity
    ensures ClosesInOrder([lot] + lots, [gain] + gains, day)
  {
  }

  lemma {:induction false} ReliefLeavesSuffix(lots: seq<Lot>, quantity: real, day: int, pps: real) returns (k: nat)
    ensures var r := Relief(lots, quantity, day, pps); Suffix(lots, r.left, k) && k <= |r.gains| <= k + 1
    decreases |lots|
  {
    if quantity <= EPS || |lots| == 0 {
      k := 0;
    } else if lots[0].quantity <= quantity {
      var more := ReliefLeavesSuffix(lots[1..], quantity - lots[0].quantity, day, pps);
      k := more + 1;
    } else {
      k := if lots[0].quantity - quantity <= EPS then 1 else 0;
    }
  }

  lemma {:induction false} ReliefClosesInOrder(lots: seq<Lot>, quantity: real, day: int, pps: real)
    ensures ClosesInOrder(lots, Relief(lots, quantity, day, pps).gains, day)
    decreases |lots|
  {
    if quantity > EPS && |lots| > 0 && lots[0].quantity <= quantity {
      var more := Relief(lots[1..], quantity - lots[0].quantity, day, pps).gains;
      ReliefClosesInOrder(lots[1..], quantity - lots[0].quantity, day, pps);
      ClosesInFront(lots[0], lots[1..], Close(lots[0], lots[0].quantity, day, pps), more, day);
      assert [lots[0]] + lots[1..] == lots;
    }
  }

  // ---------- Whole units are relieved exactly ----------

  function Times(n: int, unit: real): real {
    n as real * unit
  }

  ghost predicate Multiple(x: real, unit: real) {
    exists n: int :: x == Times(n, unit)
  }

  lemma MultiplesSubtract(x: real, y: real, unit: real)
    requires Multiple(x, unit) && Multiple(y, unit)
    ensures Multiple(x - y, unit)
  {
    var m: int :| x == Times(m, unit);
    var n: int :| y == Times(n, unit);
    assert x - y == Times(m - n, unit);
  }

  lemma AtLeastOneUnit(n: int, unit: real)
    requires unit > 0.0
    ensures n >= 1 ==> Times(n, unit) >= unit
    ensures n <= -1 ==> Times(n, unit) <= -unit
  {
  }

  lemma SmallMultipleIsZero(x: real, unit: real)
    requires unit > EPS && Multiple(x, unit) && -EPS <= x <= EPS
    ensures x == 0.0
  {
    var n: int :| x == Times(n, unit);
    AtLeastOneUnit(n, unit);
    assert n == 0;
  }

  /** When lots and quantity are whole multiples of a unit larger than the tolerance, the
      tolerance is never used: exactly `quantity` is closed and nothing is dropped. */
  lemma {:induction false} WholeUnitsRelieveExactly(lots: seq<Lot>, quantity: real, day: int, pps: real, unit: real)
    requires unit > EPS && PositiveLots(lots) && 0.0 <= quantity <= Shares(lots) + EPS
    requires Multiple(quantity, unit) && forall lot | lot in lots :: Multiple(lot.quantity, unit)
    ensures var r := Relief(lots, quantity, day, pps);
      && r.unclosed == 0.0 && r.dust == 0.0 && r.dustBasis == 0.0
      && forall lot | lot in r.left :: Multiple(lot.quantity, unit)
    decreases |lots|
  {
    if quantity <= EPS || |lots| == 0 {
      SmallMultipleIsZero(quantity, unit);
    } else {
      var lot := lots[0];
      assert lot in lots && forall x | x in lots[1..] :: x in lots;
      if lot.quantity <= quantity {
        MultiplesSubtract(quantity, lot.quantity, unit);
        WholeUnitsRelieveExactly(lots[1..], quantity - lot.quantity, day, pps, unit);
      } else {
        MultiplesSubtract(lot.quantity, quantity, unit);
        if lot.quantity - quantity <= EPS {
          SmallMultipleIsZero(lot.quantity - quantity, unit);
          assert false;
        }
      }
    }
  }
}
