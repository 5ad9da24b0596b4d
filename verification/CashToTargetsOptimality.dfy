/** What the allocator's order buys: the argument in the docstring of
    api/services/cash_to_targets.py, made exact and checked against the code. */
module CashToTargetsOptimality {
  import opened Wrappers
  import opened Arithmetic
  import opened Decimals
  import opened CashToTargets

  // ---------- The objective and its feasible allocations ----------

  function Gap(book: Book, t: TargetLine, x: real): real {
    Abs(Existing(book.held, t.symbol) + x - TargetUsd(book, t))
  }

  /** The total deviation in dollars, `xs` being spent on the targets in order. */
  function DollarGap(book: Book, targets: seq<TargetLine>, xs: seq<real>): real
    requires |xs| == |targets|
  {
    if |targets| == 0 then 0.0 else Gap(book, targets[0], xs[0]) + DollarGap(book, targets[1..], xs[1..])
  }

  /** The total deviation of weights, as the docstring defines the objective. */
  function Deviation(book: Book, targets: seq<TargetLine>, xs: seq<real>): real
    requires |xs| == |targets| && book.basis > 0.0
  {
    if |targets| == 0 then 0.0
    else
      Abs((Existing(book.held, targets[0].symbol) + xs[0]) / book.basis - targets[0].weight)
        + Deviation(book, targets[1..], xs[1..])
  }

  lemma QuotientGap(a: real, w: real, b: real)
    requires b > 0.0
    ensures Abs(a / b - w) == Abs(a - w * b) / b
  {
    assert a / b - w == (a - w * b) / b;
    assert a - w * b < 0.0 <==> (a - w * b) / b < 0.0;
  }

  lemma GapOverBasis(book: Book, t: TargetLine, x: real)
    requires book.basis > 0.0
    ensures Abs((Existing(book.held, t.symbol) + x) / book.basis - t.weight) == Gap(book, t, x) / book.basis
  {
    QuotientGap(Existing(book.held, t.symbol) + x, t.weight, book.basis);
  }

  lemma {:induction false} DeviationIsGap(book: Book, targets: seq<TargetLine>, xs: seq<real>)
    requires |xs| == |targets| && book.basis > 0.0
    ensures Deviation(book, targets, xs) == DollarGap(book, targets, xs) / book.basis
  {
    if |targets| > 0 {
      DeviationIsGap(book, targets[1..], xs[1..]);
      GapOverBasis(book, targets[0], xs[0]);
      QuotientsAdd(Gap(book, targets[0], xs[0]), DollarGap(book, targets[1..], xs[1..]), book.basis);
    }
  }

  /** How much may still go into a target: nothing if it has no price, else what is left
      below its ceiling. */
  function Room(book: Book, cfg: PlanTargetsConfig, t: TargetLine): real {
    if Price(book, t.symbol).None? then 0.0 else Max(0.0, Headroom(book, cfg, t))
  }

  function TotalRoom(book: Book, cfg: PlanTargetsConfig, targets: seq<TargetLine>): real {
    if |targets| == 0 then 0.0 else Room(book, cfg, targets[0]) + TotalRoom(book, cfg, targets[1..])
  }

  /** Spending `x` on `t` respects the price list and the position cap. */
  predicate Allowed(book: Book, cfg: PlanTargetsConfig, t: TargetLine, x: real) {
    && x >= 0.0
    && (Price(book, t.symbol).None? ==> x == 0.0)
    && (x > 0.0 && CapUsd(book, cfg).Some? ==> Existing(book.held, t.symbol) + x <= CapUsd(book, cfg).value)
  }

  ghost predicate Feasible(
    book: Book, cfg: PlanTargetsConfig, targets: seq<TargetLine>, amount: real, xs: seq<real>)
  {
    && |xs| == |targets| && Total(xs) <= amount
    && forall i | 0 <= i < |xs| :: Allowed(book, cfg, targets[i], xs[i])
  }

  ghost predicate WithinRoom(book: Book, cfg: PlanTargetsConfig, targets: seq<TargetLine>, xs: seq<real>) {
    |xs| == |targets| && forall i | 0 <= i < |xs| :: 0.0 <= xs[i] <= Room(book, cfg, targets[i])
  }

  function Nothing(n: nat): (xs: seq<real>)
    ensures |xs| == n && forall i | 0 <= i < n :: xs[i] == 0.0
  {
    seq(n, i => 0.0)
  }

  // ---------- The fractional relaxation ----------

  /** Spending in list order, each target up to its room: no share rounding, no minimum line. */
  function FractionalFill(book: Book, cfg: PlanTargetsConfig, targets: seq<TargetLine>, remaining: real)
    : (xs: seq<real>)
    ensures |xs| == |targets|
  {
    if |targets| == 0 then []
    else
      var x := Min(remaining, Room(book, cfg, targets[0]));
      [x] + FractionalFill(book, cfg, targets[1..], remaining - x)
  }

  lemma GapDrop(book: Book, cfg: PlanTargetsConfig, t: TargetLine, x: real)
    requires Allowed(book, cfg, t, x)
    ensures Gap(book, t, 0.0) - Gap(book, t, x) <= Min(x, Room(book, cfg, t))
  {
  }

  /** No allocation lowers the total gap by more than it spends, or by more than the room. */
  lemma {:induction false} GapDropBound(
    book: Book, cfg: PlanTargetsConfig, targets: seq<TargetLine>, amount: real, xs: seq<real>)
    requires Feasible(book, cfg, targets, amount, xs)
    ensures DollarGap(book, targets, Nothing(|targets|)) - DollarGap(book, targets, xs)
         <= Min(Total(xs), TotalRoom(book, cfg, targets))
  {
    if |targets| > 0 {
      GapDrop(book, cfg, targets[0], xs[0]);
      GapDropBound(book, cfg, targets[1..], Total(xs[1..]), xs[1..]);
      assert Nothing(|targets|)[1..] == Nothing(|targets| - 1);
    }
  }

  /** A plan that never passes a ceiling lowers the total gap by exactly what it spends. */
  lemma {:induction false} WithinRoomDropsGapBySpend(
    book: Book, cfg: PlanTargetsConfig, targets: seq<TargetLine>, xs: seq<real>)
    requires WithinRoom(book, cfg, targets, xs)
    ensures DollarGap(book, targets, Nothing(|targets|)) - DollarGap(book, targets, xs) == Total(xs)
  {
    if |targets| > 0 {
      WithinRoomDropsGapBySpend(book, cfg, targets[1..], xs[1..]);
      assert Nothing(|targets|)[1..] == Nothing(|targets| - 1);
    }
  }

  /** In weights: every such plan lowers the deviation by exactly spend / basis. */
  lemma DeviationDropsBySpendOverBasis(
    book: Book, cfg: PlanTargetsConfig, targets: seq<TargetLine>, xs: seq<real>)
    requires WithinRoom(book, cfg, targets, xs) && book.basis > 0.0
    ensures Deviation(book, targets, Nothing(|targets|)) - Deviation(book, targets, xs) == Total(xs) / book.basis
  {
    WithinRoomDropsGapBySpend(book, cfg, targets, xs);
    DeviationIsGap(book, targets, xs);
    DeviationIsGap(book, targets, Nothing(|targets|));
    QuotientsAdd(DollarGap(book, targets, Nothing(|targets|)), DollarGap(book, targets, xs), book.basis);
  }

  lemma {:induction false} FractionalFillSpends(
    book: Book, cfg: PlanTargetsConfig, targets: seq<TargetLine>, remaining: real)
    requires remaining >= 0.0
    ensures var xs := FractionalFill(book, cfg, targets, remaining);
      && WithinRoom(book, cfg, targets, xs)
      && Total(xs) == Min(remaining, TotalRoom(book, cfg, targets))
  {
    if |targets| > 0 {
      var x := Min(remaining, Room(book, cfg, targets[0]));
      FractionalFillSpends(book, cfg, targets[1..], remaining - x);
      var rest := FractionalFill(book, cfg, targets[1..], remaining - x);
      assert ([x] + rest)[1..] == rest;
      RoomNonNegative(book, cfg, targets[1..]);
    }
  }

  lemma {:induction false} RoomNonNegative(book: Book, cfg: PlanTargetsConfig, targets: seq<TargetLine>)
    ensures TotalRoom(book, cfg, targets) >= 0.0
  {
    if |targets| > 0 {
      RoomNonNegative(book, cfg, targets[1..]);
    }
  }

  lemma RoomIsAllowed(book: Book, cfg: PlanTargetsConfig, t: TargetLine, x: real)
    requires 0.0 <= x <= Room(book, cfg, t)
    ensures Allowed(book, cfg, t, x)
  {
  }

  /** Spending in target-list order is optimal: it is feasible, and no other non-negative
      allocation within the cash and the position caps has a smaller total gap. */
  lemma FractionalFillIsOptimal(
    book: Book, cfg: PlanTargetsConfig, targets: seq<TargetLine>, amount: real, ys: seq<real>)
    requires amount >= 0.0 && Feasible(book, cfg, targets, amount, ys)
    ensures var xs := FractionalFill(book, cfg, targets, amount);
      && Feasible(book, cfg, targets, amount, xs)
      && DollarGap(book, targets, xs) <= DollarGap(book, targets, ys)
      && (book.basis > 0.0 ==> Deviation(book, targets, xs) <= Deviation(book, targets, ys))
  {
    var xs := FractionalFill(book, cfg, targets, amount);
    FractionalFillSpends(book, cfg, targets, amount);
    forall i | 0 <= i < |xs| ensures Allowed(book, cfg, targets[i], xs[i]) {
      RoomIsAllowed(book, cfg, targets[i], xs[i]);
    }
    WithinRoomDropsGapBySpend(book, cfg, targets, xs);
    GapDropBound(book, cfg, targets, amount, ys);
    if book.basis > 0.0 {
      DeviationIsGap(book, targets, xs);
      DeviationIsGap(book, targets, ys);
      QuotientMonotone(DollarGap(book, targets, xs), DollarGap(book, targets, ys), book.basis);
    }
  }

  // ---------- The whole-share plan ----------

  /** Rounding a line to cents is exact when its price is a whole number of cents. */
  function Slack(price: real): real {
    if WholeCents(price) then 0.0 else 0.005
  }

  /** Rounding what is left to cents is exact when the amount is whole cents. */
  function Drift(amount: real): real {
    if WholeCents(amount) then 0.0 else 0.005
  }

  function PriceTotal(book: Book, targets: seq<TargetLine>): real {
    if |targets| == 0 then 0.0
    else Price(book, targets[0].symbol).GetOr(0.0) + PriceTotal(book, targets[1..])
  }

  /** The minimum line once for each priced target. */
  function MinTotal(book: Book, cfg: PlanTargetsConfig, targets: seq<TargetLine>): real {
    if |targets| == 0 then 0.0
    else (if Price(book, targets[0].symbol).Some? then Max(0.0, cfg.minLineUsd) else 0.0)
         + MinTotal(book, cfg, targets[1..])
  }

  function SlackTotal(book: Book, targets: seq<TargetLine>): real {
    if |targets| == 0 then 0.0
    else (if Price(book, targets[0].symbol).Some? then Slack(Price(book, targets[0].symbol).value) else 0.0)
         + SlackTotal(book, targets[1..])
  }

  lemma WholeUnits(budget: real, price: real, quotient: real, units: real)
    requires price > 0.0 && quotient == budget / price && units <= quotient < units + 1.0
    ensures units * price <= budget < units * price + price
  {
    assert budget == quotient * price;
    ProductMonotone(units, quotient, price);
    ProductMonotone(quotient, units + 1.0, price);
    assert (units + 1.0) * price == units * price + price;
  }

  lemma CostIsProduct(shares: int, price: real)
    ensures Cost(shares, price) == shares as real * price
  {
  }

  lemma WholeShares(budget: real, price: real)
    requires budget >= 0.0 && price > 0.0
    ensures var shares := Shares(budget, price);
      0 <= shares && Cost(shares, price) <= budget < Cost(shares, price) + price
  {
    var quotient := budget / price;
    WholeUnits(budget, price, quotient, quotient.Floor as real);
    CostIsProduct(quotient.Floor, price);
    assert quotient >= 0.0;
  }

  lemma RoundedCost(cost: real, budget: real, remaining: real, price: real)
    requires 0.0 <= cost <= budget <= remaining && budget < cost + price
    requires WholeCents(price) ==> WholeCents(cost)
    ensures var usd := Cents(cost);
      && budget - price - Slack(price) < usd <= budget + Slack(price)
      && usd <= remaining + Drift(remaining) && usd >= 0.0 && WholeCents(usd)
  {
    CentsWhole(cost);
    CentsMonotone(cost, remaining);
    CountIsWholeCents(0);
    CentsMonotone(0.0, cost);
  }

  lemma LineUsdBounds(budget: real, remaining: real, price: real)
    requires 0.0 <= budget <= remaining && price > 0.0
    ensures var usd := Cents(Cost(Shares(budget, price), price));
      && budget - price - Slack(price) < usd <= budget + Slack(price)
      && usd <= remaining + Drift(remaining) && usd >= 0.0 && WholeCents(usd)
  {
    var shares := Shares(budget, price);
    WholeShares(budget, price);
    if WholeCents(price) {
      WholeCentsTimes(shares, price);
    }
    CostIsProduct(shares, price);
    ProductMonotone(0.0, shares as real, price);
    RoundedCost(Cost(shares, price), budget, remaining, price);
  }

  /** One line: whole shares, at least a share's price short of its budget at worst, over it
      by rounding at most, and never over what is left when that is whole cents. */
  lemma LineBounds(book: Book, cfg: PlanTargetsConfig, t: TargetLine, remaining: real)
    requires remaining >= 0.0
    ensures var v := Decide(book, cfg, t, remaining);
      v.Buy? ==>
        && Price(book, t.symbol) == Some(v.line.price) && v.line.symbol == t.symbol
        && v.line.shares >= 1 && v.line.usd >= cfg.minLineUsd && v.line.usd >= 0.0
        && var budget := Min(remaining, Room(book, cfg, t));
           && budget - v.line.price - Slack(v.line.price) < v.line.usd <= budget + Slack(v.line.price)
           && v.line.usd <= remaining + Drift(remaining)
           && WholeCents(v.line.usd)
  {
    var headroom, price := Headroom(book, cfg, t), Price(book, t.symbol);
    if price.Some? && headroom > 0.0 {
      LineUsdBounds(Min(remaining, headroom), remaining, price.value);
    }
  }

  /** A target is passed over only when less than a share, or than the minimum line, fits. */
  lemma SkipBounds(book: Book, cfg: PlanTargetsConfig, t: TargetLine, remaining: real)
    requires remaining >= 0.0
    ensures var v := Decide(book, cfg, t, remaining);
      v.Skip? && Room(book, cfg, t) > 0.0 ==>
        && Price(book, t.symbol).Some?
        && var price := Price(book, t.symbol).value;
           Min(remaining, Room(book, cfg, t)) < price + Slack(price) + Max(0.0, cfg.minLineUsd)
  {
    var v := Decide(book, cfg, t, remaining);
    if v.Skip? && Room(book, cfg, t) > 0.0 {
      var budget, price := Min(remaining, Headroom(book, cfg, t)), Price(book, t.symbol).value;
      WholeShares(budget, price);
      LineUsdBounds(budget, remaining, price);
    }
  }

  /** What is left after a line is never negative and is out by the drift at most. */
  lemma LeftBounds(book: Book, cfg: PlanTargetsConfig, t: TargetLine, remaining: real)
    requires remaining >= 0.0
    ensures var v := Decide(book, cfg, t, remaining);
      v.Buy? ==>
        && Left(remaining, v) >= 0.0 && WholeCents(Left(remaining, v))
        && remaining - v.line.usd - Drift(remaining) <= Left(remaining, v) <= remaining - v.line.usd + Drift(remaining)
  {
    var v := Decide(book, cfg, t, remaining);
    if v.Buy? {
      LineBounds(book, cfg, t, remaining);
      CentsWhole(remaining - v.line.usd);
      if WholeCents(remaining) {
        WholeCentsAdd(remaining, v.line.usd);
      } else {
        CentsMonotone(-0.005, remaining - v.line.usd);
        assert Cents(-0.005) == 0.0 by {
          assert (-0.005) * 100.0 == -0.5;
          assert (-0.5 as real).Floor == -1;
        }
      }
    }
  }

  /** The plan never spends more than a whole-cent amount, and otherwise at most half a cent
      more. This holds with any minimum line and any prices. */
  lemma {:induction false} NeverOverspends(
    book: Book, cfg: PlanTargetsConfig, targets: seq<TargetLine>, amount: real)
    requires amount >= 0.0
    ensures Total(Spends(Fill(book, cfg, targets, amount))) <= amount + Drift(amount)
  {
    if |targets| > 0 {
      var v := Decide(book, cfg, targets[0], amount);
      LineBounds(book, cfg, targets[0], amount);
      LeftBounds(book, cfg, targets[0], amount);
      NeverOverspends(book, cfg, targets[1..], Left(amount, v));
      var rest := Fill(book, cfg, targets[1..], Left(amount, v));
      assert Spends([v] + rest)[1..] == Spends(rest);
    }
  }

  lemma {:induction false} CostsNonNegative(book: Book, cfg: PlanTargetsConfig, targets: seq<TargetLine>)
    ensures PriceTotal(book, targets) >= 0.0 && SlackTotal(book, targets) >= 0.0 && MinTotal(book, cfg, targets) >= 0.0
  {
    if |targets| > 0 {
      CostsNonNegative(book, cfg, targets[1..]);
    }
  }

  /** What each priced target may leave unspent: a share, the minimum line, and rounding. */
  function Shortfall(book: Book, cfg: PlanTargetsConfig, targets: seq<TargetLine>): real {
    PriceTotal(book, targets) + MinTotal(book, cfg, targets) + SlackTotal(book, targets)
  }

  /** The plan spends all but one share price and one minimum line per priced target. */
  lemma {:induction false} SpendsAlmostAll(
    book: Book, cfg: PlanTargetsConfig, targets: seq<TargetLine>, amount: real)
    requires amount >= 0.0
    ensures Total(Spends(Fill(book, cfg, targets, amount)))
         >= Min(amount, TotalRoom(book, cfg, targets)) - Shortfall(book, cfg, targets) - Drift(amount)
    ensures Total(Spends(Fill(book, cfg, targets, amount))) >= 0.0
  {
    if |targets| > 0 {
      var v := Decide(book, cfg, targets[0], amount);
      LineBounds(book, cfg, targets[0], amount);
      LeftBounds(book, cfg, targets[0], amount);
      SkipBounds(book, cfg, targets[0], amount);
      SpendsAlmostAll(book, cfg, targets[1..], Left(amount, v));
      RoomNonNegative(book, cfg, targets[1..]);
      CostsNonNegative(book, cfg, targets[1..]);
      var rest := Fill(book, cfg, targets[1..], Left(amount, v));
      assert Spends([v] + rest)[1..] == Spends(rest);
    } else {
      RoomNonNegative(book, cfg, targets);
    }
  }

  lemma LineDropsGap(book: Book, cfg: PlanTargetsConfig, t: TargetLine, x: real, slack: real)
    requires 0.0 <= x <= Room(book, cfg, t) + slack && slack >= 0.0
    ensures Gap(book, t, 0.0) - Gap(book, t, x) >= x - 2.0 * slack
  {
  }

  lemma {:induction false} FillDropsGap(
    book: Book, cfg: PlanTargetsConfig, targets: seq<TargetLine>, amount: real)
    requires amount >= 0.0
    ensures var xs := Spends(Fill(book, cfg, targets, amount));
      DollarGap(book, targets, Nothing(|targets|)) - DollarGap(book, targets, xs)
        >= Total(xs) - 2.0 * SlackTotal(book, targets)
  {
    if |targets| > 0 {
      var t := targets[0];
      var v := Decide(book, cfg, t, amount);
      LineBounds(book, cfg, t, amount);
      LeftBounds(book, cfg, t, amount);
      FillDropsGap(book, cfg, targets[1..], Left(amount, v));
      LineDropsGap(book, cfg, t, Usd(v), if v.Buy? then Slack(v.line.price) else 0.0);
      var rest := Fill(book, cfg, targets[1..], Left(amount, v));
      assert Spends([v] + rest)[1..] == Spends(rest);
      assert Nothing(|targets|)[1..] == Nothing(|targets| - 1);
    }
  }

  /** The whole-share plan is near-optimal: its total gap is within one share price and one
      minimum line per priced target of every feasible plan's, fractional ones included. */
  lemma WholeSharePlanIsNearOptimal(
    book: Book, cfg: PlanTargetsConfig, targets: seq<TargetLine>, amount: real, ys: seq<real>)
    requires amount >= 0.0 && Feasible(book, cfg, targets, amount, ys)
    ensures var xs := Spends(Fill(book, cfg, targets, amount));
      var bound := Shortfall(book, cfg, targets) + 2.0 * SlackTotal(book, targets) + Drift(amount);
      && DollarGap(book, targets, xs) <= DollarGap(book, targets, ys) + bound
      && (book.basis > 0.0 ==> Deviation(book, targets, xs) <= Deviation(book, targets, ys) + bound / book.basis)
  {
    var xs := Spends(Fill(book, cfg, targets, amount));
    var bound := Shortfall(book, cfg, targets) + 2.0 * SlackTotal(book, targets) + Drift(amount);
    FillDropsGap(book, cfg, targets, amount);
    SpendsAlmostAll(book, cfg, targets, amount);
    GapDropBound(book, cfg, targets, amount, ys);
    if book.basis > 0.0 {
      DeviationIsGap(book, targets, xs);
      DeviationIsGap(book, targets, ys);
      QuotientMonotone(DollarGap(book, targets, xs), DollarGap(book, targets, ys) + bound, book.basis);
      QuotientsAdd(DollarGap(book, targets, ys), bound, book.basis);
    }
  }

  ghost predicate WholeCentPrices(book: Book, targets: seq<TargetLine>) {
    forall t | t in targets && Price(book, t.symbol).Some? :: WholeCents(Price(book, t.symbol).value)
  }

  lemma {:induction false} WholeCentPricesLeaveNoSlack(book: Book, targets: seq<TargetLine>)
    requires WholeCentPrices(book, targets)
    ensures SlackTotal(book, targets) == 0.0
  {
    if |targets| > 0 {
      assert targets[0] in targets && forall t | t in targets[1..] :: t in targets;
      WholeCentPricesLeaveNoSlack(book, targets[1..]);
    }
  }

  lemma {:induction false} NoMinimumNoLoss(book: Book, cfg: PlanTargetsConfig, targets: seq<TargetLine>)
    requires cfg.minLineUsd <= 0.0
    ensures MinTotal(book, cfg, targets) == 0.0
  {
    if |targets| > 0 {
      NoMinimumNoLoss(book, cfg, targets[1..]);
    }
  }

  /** In whole cents and without a minimum line, exactly one share price per priced target: that
      much at most is left unspent, and that much at most the plan's gap is above any feasible one's. */
  lemma OneShareEachInWholeCents(
    book: Book, cfg: PlanTargetsConfig, targets: seq<TargetLine>, amount: real, ys: seq<real>)
    requires amount >= 0.0 && WholeCents(amount) && WholeCentPrices(book, targets) && cfg.minLineUsd <= 0.0
    requires Feasible(book, cfg, targets, amount, ys)
    ensures var xs := Spends(Fill(book, cfg, targets, amount));
      && Total(xs) >= Min(amount, TotalRoom(book, cfg, targets)) - PriceTotal(book, targets)
      && DollarGap(book, targets, xs) <= DollarGap(book, targets, ys) + PriceTotal(book, targets)
      && (book.basis > 0.0 ==>
            Deviation(book, targets, xs) <= Deviation(book, targets, ys) + PriceTotal(book, targets) / book.basis)
  {
    WholeCentPricesLeaveNoSlack(book, targets);
    NoMinimumNoLoss(book, cfg, targets);
    SpendsAlmostAll(book, cfg, targets, amount);
    WholeSharePlanIsNearOptimal(book, cfg, targets, amount, ys);
  }
}
