/** The promise of api/services/cash_to_targets.py itself: among whole-share purchases within the
    cash, the position cap and the minimum line, when does list order leave the smallest total gap. */
module CashToTargetsWholeShares {
  import opened Wrappers
  import opened Arithmetic
  import opened Decimals
  import opened CashToTargets
  import opened CashToTargetsOptimality
  import opened CashToTargetsLimits

  // ---------- Whole-share plans ----------

  /** Whole shares within the cash, the price list, the cap and the minimum line. */
  ghost predicate WholeSharePlan(
    book: Book, cfg: PlanTargetsConfig, targets: seq<TargetLine>, amount: real, ys: seq<real>)
  {
    Feasible(book, cfg, targets, amount, ys) && AllFit(book, cfg, targets, ys)
  }

  /** No whole-share plan has a smaller total gap. */
  ghost predicate NoWholeSharePlanBeats(
    book: Book, cfg: PlanTargetsConfig, targets: seq<TargetLine>, amount: real, xs: seq<real>)
    requires |xs| == |targets|
  {
    forall ys | WholeSharePlan(book, cfg, targets, amount, ys) ::
      DollarGap(book, targets, xs) <= DollarGap(book, targets, ys)
  }

  /** Dollar gaps order plans as the deviations of weights do. */
  lemma DeviationOrdersAlike(book: Book, targets: seq<TargetLine>, xs: seq<real>, ys: seq<real>)
    requires |xs| == |ys| == |targets| && book.basis > 0.0
    ensures DollarGap(book, targets, xs) <= DollarGap(book, targets, ys)
       <==> Deviation(book, targets, xs) <= Deviation(book, targets, ys)
  {
    DeviationIsGap(book, targets, xs);
    DeviationIsGap(book, targets, ys);
    QuotientOrder(DollarGap(book, targets, xs), DollarGap(book, targets, ys), book.basis);
  }

  lemma SharesOfCost(n: int, price: real)
    requires price > 0.0
    ensures Shares(Cost(n, price), price) == n
  {
    SharesAre(Cost(n, price), price, n);
  }

  /** A line fits exactly when it is nothing, or some number of shares worth the minimum line. */
  lemma FitsExactly(book: Book, cfg: PlanTargetsConfig, t: TargetLine, y: real)
    ensures Fits(book, cfg, t, y)
       <==> || y == 0.0
            || (Price(book, t.symbol).Some? && y >= cfg.minLineUsd
                && exists n: int :: n >= 1 && y == Cost(n, Price(book, t.symbol).value))
  {
    if Price(book, t.symbol).Some? {
      var price := Price(book, t.symbol).value;
      if n: int :| n >= 1 && y == Cost(n, price) {
        SharesOfCost(n, price);
        CostGrows(n, price);
      }
      if Fits(book, cfg, t, y) && y != 0.0 {
        CostGrows(Shares(y, price), price);
        assert Shares(y, price) >= 1;
      }
    }
  }

  lemma DecideFits(book: Book, cfg: PlanTargetsConfig, t: TargetLine, remaining: real)
    requires remaining >= 0.0
    requires Price(book, t.symbol).Some? ==> WholeCents(Price(book, t.symbol).value)
    ensures Fits(book, cfg, t, Usd(Decide(book, cfg, t, remaining)))
  {
    var v := Decide(book, cfg, t, remaining);
    if v.Buy? {
      CostIsWholeCents(v.line.shares, v.line.price);
      CostGrows(v.line.shares, v.line.price);
      SharesOfCost(v.line.shares, v.line.price);
    }
  }

  lemma {:induction false} SpendsFit(book: Book, cfg: PlanTargetsConfig, targets: seq<TargetLine>, amount: real)
    requires amount >= 0.0 && WholeCents(amount) && WholeCentPrices(book, targets)
    ensures AllFit(book, cfg, targets, PlanSpends(book, cfg, targets, amount))
    decreases |targets|
  {
    if |targets| > 0 {
      assert targets[0] in targets;
      var usd, _, left := PlanHead(book, cfg, targets, amount);
      DecideFits(book, cfg, targets[0], amount);
      HeadIsUsd(book, cfg, targets, amount, usd, left);
      PricesOfTheRest(book, targets);
      SpendsFit(book, cfg, targets[1..], left);
      ConsFits(book, cfg, targets, usd, PlanSpends(book, cfg, targets[1..], left));
    }
  }

  lemma HeadIsUsd(book: Book, cfg: PlanTargetsConfig, targets: seq<TargetLine>, amount: real, usd: real, left: real)
    requires |targets| > 0
    requires PlanSpends(book, cfg, targets, amount) == [usd] + PlanSpends(book, cfg, targets[1..], left)
    ensures usd == Usd(Decide(book, cfg, targets[0], amount))
  {
    assert PlanSpends(book, cfg, targets, amount)[0] == usd;
  }

  /** The plan is one of the whole-share plans it competes with. */
  lemma PlanIsWholeShares(book: Book, cfg: PlanTargetsConfig, targets: seq<TargetLine>, amount: real)
    requires amount >= 0.0 && WholeCents(amount) && WholeCentPrices(book, targets)
    ensures WholeSharePlan(book, cfg, targets, amount, PlanSpends(book, cfg, targets, amount))
  {
    var xs := PlanSpends(book, cfg, targets, amount);
    SpendsFit(book, cfg, targets, amount);
    NeverOverspends(book, cfg, targets, amount);
    PlanIsWithinRoom(book, cfg, targets, amount);
    forall i | 0 <= i < |xs| ensures Allowed(book, cfg, targets[i], xs[i]) {
      RoomIsAllowed(book, cfg, targets[i], xs[i]);
    }
  }

  // ---------- The next whole-share line ----------

  function LeastShares(price: real, minLine: real): int
    requires price > 0.0
  {
    if minLine <= price then 1 else -((-Quotient(minLine, price)).Floor)
  }

  /** The smallest line that may be bought after `x`: one more share, or the least line at all. */
  function NextLine(price: real, minLine: real, x: real): real
    requires price > 0.0
  {
    if x > 0.0 then x + price else Cost(LeastShares(price, minLine), price)
  }

  lemma CeilingBounds(q: real, n: int, k: int)
    requires n == -((-q).Floor)
    ensures n as real - 1.0 < q <= n as real
    ensures k as real >= q ==> k >= n
  {
  }

  lemma AboveQuotient(q: real, price: real, minLine: real, r: real)
    requires price > 0.0 && Product(q, price) == minLine
    ensures r >= q <==> Product(r, price) >= minLine
  {
    ProductMonotone(q, r, price);
    ProductMonotone(r, q, price);
  }

  lemma CeilingOfQuotient(minLine: real, price: real, q: real, n: int)
    requires price > 0.0 && q == Quotient(minLine, price) && n == -((-q).Floor)
    ensures Cost(n, price) >= minLine && Cost(n, price) < minLine + price
    ensures forall k: int | Cost(k, price) >= minLine :: k >= n
  {
    var r := n as real;
    var below := n - 1;
    QuotientTimes(minLine, price);
    CeilingBounds(q, n, n);
    AboveQuotient(q, price, minLine, r);
    AboveQuotient(q, price, minLine, below as real);
    OneShareMore(below, price);
    forall k: int | Cost(k, price) >= minLine ensures k >= n {
      AboveQuotient(q, price, minLine, k as real);
      CeilingBounds(q, n, k);
    }
  }

  /** The least line: whole shares worth the minimum, at most a share above it, and no smaller
      line is. */
  lemma LeastLine(price: real, minLine: real)
    requires price > 0.0
    ensures var n := LeastShares(price, minLine);
      && n >= 1 && Cost(n, price) >= minLine && Cost(n, price) <= Max(0.0, minLine) + price
      && forall k: int | k >= 1 && Cost(k, price) >= minLine :: k >= n
  {
    SharesOrder(0, 1, price);
    if minLine > price {
      CeilingOfQuotient(minLine, price, Quotient(minLine, price), LeastShares(price, minLine));
      SharesOrder(LeastShares(price, minLine), 0, price);
    }
  }

  /** Any whole-share line is at most `x` or at least the next one. */
  lemma NextIsNext(book: Book, cfg: PlanTargetsConfig, t: TargetLine, x: real, y: real)
    requires Price(book, t.symbol).Some? && Fits(book, cfg, t, x) && Fits(book, cfg, t, y)
    ensures var next := NextLine(Price(book, t.symbol).value, cfg.minLineUsd, x);
      Fits(book, cfg, t, next) && x < next && (y <= x || next <= y)
  {
    var price := Price(book, t.symbol).value;
    var next := NextLine(price, cfg.minLineUsd, x);
    LeastLine(price, cfg.minLineUsd);
    FitsExactly(book, cfg, t, x);
    FitsExactly(book, cfg, t, y);
    var m, n := Shares(x, price), Shares(y, price);
    SharesOrder(m, m + 1, price);
    SharesOrder(n, m, price);
    SharesOrder(m + 1, n, price);
    SharesOrder(LeastShares(price, cfg.minLineUsd), n, price);
    CostGrows(LeastShares(price, cfg.minLineUsd), price);
    CostGrows(n, price);
    var k: int := if x > 0.0 then m + 1 else LeastShares(price, cfg.minLineUsd);
    CostGrows(m, price);
    assert next == Cost(k, price) && k >= 1;
    FitsExactly(book, cfg, t, next);
  }

  // ---------- One line ----------

  /** A whole-share line for `t` within some cash. */
  predicate LineWithin(book: Book, cfg: PlanTargetsConfig, t: TargetLine, cash: real, y: real) {
    Fits(book, cfg, t, y) && Allowed(book, cfg, t, y) && y <= cash
  }

  ghost predicate BestLine(book: Book, cfg: PlanTargetsConfig, t: TargetLine, cash: real, x: real) {
    forall y | LineWithin(book, cfg, t, cash, y) :: Gap(book, t, x) <= Gap(book, t, y)
  }

  predicate CapAdmits(book: Book, cfg: PlanTargetsConfig, t: TargetLine, y: real) {
    CapUsd(book, cfg).None? || Existing(book.held, t.symbol) + y <= CapUsd(book, cfg).value
  }

  /** The next line is affordable, the cap admits it, and it passes the room by less than `x`
      falls short of it. */
  predicate Improvable(book: Book, cfg: PlanTargetsConfig, t: TargetLine, cash: real, x: real) {
    && Price(book, t.symbol).Some?
    && var next := NextLine(Price(book, t.symbol).value, cfg.minLineUsd, x);
       next <= cash && CapAdmits(book, cfg, t, next) && x + next < 2.0 * Room(book, cfg, t)
  }

  /** Whatever cash there was for it, a line below the room loses to an improving next line. */
  lemma NextIsCloser(book: Book, cfg: PlanTargetsConfig, t: TargetLine, cash: real, x: real)
    requires Fits(book, cfg, t, x) && 0.0 <= x <= Room(book, cfg, t) && Improvable(book, cfg, t, cash, x)
    ensures var next := NextLine(Price(book, t.symbol).value, cfg.minLineUsd, x);
      LineWithin(book, cfg, t, cash, next) && Gap(book, t, next) < Gap(book, t, x)
  {
    NextIsNext(book, cfg, t, x, x);
  }

  /** The largest line a budget buys, if it is one that may be bought. */
  function BudgetLine(budget: real, price: real, minLine: real): real
    requires price > 0.0
  {
    var k := Shares(budget, price);
    if k >= 1 && Cost(k, price) >= minLine then Cost(k, price) else 0.0
  }

  lemma BudgetLineIsLast(budget: real, price: real, minLine: real)
    requires price > 0.0 && budget >= 0.0
    ensures var x := BudgetLine(budget, price, minLine);
      0.0 <= x <= budget < NextLine(price, minLine, x)
  {
    var k, n := Shares(budget, price), LeastShares(price, minLine);
    var k' := k + 1;
    WholeShares(budget, price);
    CostGrows(k, price);
    LeastLine(price, minLine);
    SharesOrder(k, k', price);
    SharesOrder(k', n, price);
    if k >= 1 && Cost(k, price) < minLine {
      SharesOrder(n, k, price);
    }
  }

  lemma DecidesBudgetLine(book: Book, cfg: PlanTargetsConfig, t: TargetLine, remaining: real)
    requires remaining >= 0.0 && Price(book, t.symbol).Some? && WholeCents(Price(book, t.symbol).value)
    ensures Usd(Decide(book, cfg, t, remaining))
         == if Headroom(book, cfg, t) <= 0.0 || remaining < cfg.minLineUsd then 0.0
            else BudgetLine(Min(remaining, Headroom(book, cfg, t)), Price(book, t.symbol).value, cfg.minLineUsd)
  {
    var price := Price(book, t.symbol).value;
    CostIsWholeCents(Shares(Min(remaining, Headroom(book, cfg, t)), price), price);
  }

  /** Between the line and the lesser of cash and room there is no other whole-share line. */
  lemma NextPassesBudget(book: Book, cfg: PlanTargetsConfig, t: TargetLine, remaining: real)
    requires remaining >= 0.0 && Price(book, t.symbol).Some? && WholeCents(Price(book, t.symbol).value)
    ensures var x := Usd(Decide(book, cfg, t, remaining));
      0.0 <= x <= Min(remaining, Room(book, cfg, t)) < NextLine(Price(book, t.symbol).value, cfg.minLineUsd, x)
  {
    var price := Price(book, t.symbol).value;
    DecidesBudgetLine(book, cfg, t, remaining);
    if Headroom(book, cfg, t) <= 0.0 || remaining < cfg.minLineUsd {
      LeastLine(price, cfg.minLineUsd);
      CostGrows(LeastShares(price, cfg.minLineUsd), price);
    } else {
      BudgetLineIsLast(Min(remaining, Headroom(book, cfg, t)), price, cfg.minLineUsd);
    }
  }

  /** Beyond the room a line only gets worse, unless nothing but the target itself bounds the room. */
  lemma PastTheRoom(book: Book, cfg: PlanTargetsConfig, t: TargetLine, x: real, next: real, y: real)
    requires 0.0 <= x <= Room(book, cfg, t) < next <= y && Allowed(book, cfg, t, y)
    requires !CapAdmits(book, cfg, t, next) || x + next >= 2.0 * Room(book, cfg, t)
    ensures Gap(book, t, x) <= Gap(book, t, y)
  {
  }

  lemma ShorterIsNoCloser(book: Book, cfg: PlanTargetsConfig, t: TargetLine, x: real, y: real)
    requires 0.0 <= y <= x <= Room(book, cfg, t)
    ensures Gap(book, t, x) <= Gap(book, t, y)
  {
  }

  /** For any cash left, the line bought is the best whole-share line for its target exactly when
      the next one does not improve on it. */
  lemma LineIsBestExactly(book: Book, cfg: PlanTargetsConfig, t: TargetLine, remaining: real)
    requires remaining >= 0.0
    requires Price(book, t.symbol).Some? ==> WholeCents(Price(book, t.symbol).value)
    ensures var x := Usd(Decide(book, cfg, t, remaining));
      BestLine(book, cfg, t, remaining, x) <==> !Improvable(book, cfg, t, remaining, x)
  {
    var x := Usd(Decide(book, cfg, t, remaining));
    DecideFits(book, cfg, t, remaining);
    if Price(book, t.symbol).Some? {
      NextPassesBudget(book, cfg, t, remaining);
      var next := NextLine(Price(book, t.symbol).value, cfg.minLineUsd, x);
      if Improvable(book, cfg, t, remaining, x) {
        NextIsCloser(book, cfg, t, remaining, x);
      } else {
        forall y | LineWithin(book, cfg, t, remaining, y) ensures Gap(book, t, x) <= Gap(book, t, y) {
          NextIsNext(book, cfg, t, x, y);
          if y <= x {
            ShorterIsNoCloser(book, cfg, t, x, y);
          } else {
            PastTheRoom(book, cfg, t, x, next, y);
          }
        }
      }
    }
  }

  // ---------- The whole plan ----------

  lemma {:induction false} GapsAddUp(book: Book, targets: seq<TargetLine>, xs: seq<real>, ys: seq<real>)
    requires |xs| == |ys| == |targets|
    requires forall i | 0 <= i < |xs| :: Gap(book, targets[i], xs[i]) <= Gap(book, targets[i], ys[i])
    ensures DollarGap(book, targets, xs) <= DollarGap(book, targets, ys)
    decreases |targets|
  {
    if |targets| > 0 {
      assert forall i | 0 <= i < |xs[1..]| ::
        xs[1..][i] == xs[i + 1] && ys[1..][i] == ys[i + 1] && targets[1..][i] == targets[i + 1];
      GapsAddUp(book, targets[1..], xs[1..], ys[1..]);
    }
  }

  /** Changing one line changes the total spent and the total gap by that line's own change. */
  lemma {:induction false} OneLineChanged(book: Book, targets: seq<TargetLine>, xs: seq<real>, i: nat, y: real)
    requires |xs| == |targets| && i < |xs|
    ensures Total(xs[i := y]) == Total(xs) - xs[i] + y
    ensures DollarGap(book, targets, xs[i := y])
         == DollarGap(book, targets, xs) - Gap(book, targets[i], xs[i]) + Gap(book, targets[i], y)
    decreases |targets|
  {
    if i == 0 {
      assert xs[0 := y][1..] == xs[1..];
    } else {
      assert xs[i := y][1..] == xs[1..][i - 1 := y];
      OneLineChanged(book, targets[1..], xs[1..], i - 1, y);
    }
  }

  lemma LineOfPlan(book: Book, cfg: PlanTargetsConfig, targets: seq<TargetLine>, amount: real, xs: seq<real>, i: nat)
    requires WholeSharePlan(book, cfg, targets, amount, xs) && i < |xs|
    ensures Fits(book, cfg, targets[i], xs[i]) && Allowed(book, cfg, targets[i], xs[i])
    ensures 0.0 <= xs[i] <= Total(xs)
  {
    PartOfTotal(xs, i);
  }

  lemma {:induction false} PartOfTotal(xs: seq<real>, i: nat)
    requires i < |xs| && forall j | 0 <= j < |xs| :: xs[j] >= 0.0
    ensures 0.0 <= xs[i] <= Total(xs)
  {
    assert forall j | 0 <= j < |xs[1..]| :: xs[1..][j] == xs[j + 1];
    if i > 0 {
      PartOfTotal(xs[1..], i - 1);
    } else if |xs| > 1 {
      PartOfTotal(xs[1..], 0);
    }
  }

  /** With any amount of cash, a line that the unspent cash could improve makes the plan lose to
      another whole-share plan. */
  lemma UnspentCashBeatsThePlan(book: Book, cfg: PlanTargetsConfig, targets: seq<TargetLine>, amount: real, i: nat)
    requires amount >= 0.0 && WholeCents(amount) && WholeCentPrices(book, targets) && i < |targets|
    requires var xs := PlanSpends(book, cfg, targets, amount);
      Improvable(book, cfg, targets[i], amount - Total(xs) + xs[i], xs[i])
    ensures !NoWholeSharePlanBeats(book, cfg, targets, amount, PlanSpends(book, cfg, targets, amount))
  {
    var t, xs := targets[i], PlanSpends(book, cfg, targets, amount);
    var x, cash := xs[i], amount - Total(xs) + xs[i];
    PlanIsWholeShares(book, cfg, targets, amount);
    PlanIsWithinRoom(book, cfg, targets, amount);
    LineOfPlan(book, cfg, targets, amount, xs, i);
    NextIsCloser(book, cfg, t, cash, x);
    var next := NextLine(Price(book, t.symbol).value, cfg.minLineUsd, x);
    var ys := xs[i := next];
    OneLineChanged(book, targets, xs, i, next);
    assert WholeSharePlan(book, cfg, targets, amount, ys);
  }

  /** The line for a target whose room is the only limit. */
  function RoomLine(book: Book, cfg: PlanTargetsConfig, t: TargetLine): real {
    if Price(book, t.symbol).None? || Headroom(book, cfg, t) <= 0.0 then 0.0
    else BudgetLine(Room(book, cfg, t), Price(book, t.symbol).value, cfg.minLineUsd)
  }

  /** Cash that suffices for a target, whatever its next line: its room, one share, the minimum. */
  function Enough(book: Book, cfg: PlanTargetsConfig, t: TargetLine): real {
    if Price(book, t.symbol).None? then 0.0
    else Room(book, cfg, t) + Price(book, t.symbol).value + Max(0.0, cfg.minLineUsd)
  }

  function AmpleCash(book: Book, cfg: PlanTargetsConfig, targets: seq<TargetLine>): real {
    TotalRoom(book, cfg, targets) + PriceTotal(book, targets) + MinTotal(book, cfg, targets)
  }

  /** One more line, past the target, leaves a smaller gap than the room's own line: a matter of
      price, room, cap and minimum line alone. */
  predicate BetterPassed(book: Book, cfg: PlanTargetsConfig, t: TargetLine) {
    Improvable(book, cfg, t, Enough(book, cfg, t), RoomLine(book, cfg, t))
  }

  lemma EnoughDecides(book: Book, cfg: PlanTargetsConfig, t: TargetLine, remaining: real)
    requires remaining >= Enough(book, cfg, t)
    requires remaining >= 0.0 && (Price(book, t.symbol).Some? ==> WholeCents(Price(book, t.symbol).value))
    ensures Usd(Decide(book, cfg, t, remaining)) == RoomLine(book, cfg, t)
    ensures Improvable(book, cfg, t, remaining, RoomLine(book, cfg, t)) <==> BetterPassed(book, cfg, t)
  {
    if Price(book, t.symbol).Some? {
      var price := Price(book, t.symbol).value;
      DecidesBudgetLine(book, cfg, t, remaining);
      BudgetLineIsLast(Room(book, cfg, t), price, cfg.minLineUsd);
      LeastLine(price, cfg.minLineUsd);
    }
  }

  lemma AmpleForEach(book: Book, cfg: PlanTargetsConfig, targets: seq<TargetLine>, i: nat)
    requires i < |targets|
    ensures 0.0 <= Enough(book, cfg, targets[i]) <= AmpleCash(book, cfg, targets)
    decreases |targets|
  {
    RoomNonNegative(book, cfg, targets[1..]);
    CostsNonNegative(book, cfg, targets[1..]);
    if i > 0 {
      AmpleForEach(book, cfg, targets[1..], i - 1);
    }
  }

  /** With ample cash every line is its room's own line. */
  lemma {:induction false} AmpleLines(book: Book, cfg: PlanTargetsConfig, targets: seq<TargetLine>, amount: real)
    requires WholeCents(amount) && WholeCentPrices(book, targets) && amount >= AmpleCash(book, cfg, targets)
    ensures var xs := PlanSpends(book, cfg, targets, amount);
      |xs| == |targets| && forall i | 0 <= i < |xs| :: xs[i] == RoomLine(book, cfg, targets[i])
    decreases |targets|
  {
    if |targets| > 0 {
      var t, later := targets[0], targets[1..];
      assert t in targets;
      RoomNonNegative(book, cfg, later);
      CostsNonNegative(book, cfg, later);
      EnoughDecides(book, cfg, t, amount);
      var usd, x, left := PlanHead(book, cfg, targets, amount);
      HeadIsUsd(book, cfg, targets, amount, usd, left);
      RoomLineWithin(book, cfg, t);
      PricesOfTheRest(book, targets);
      AmpleLines(book, cfg, later, left);
    }
  }

  lemma RoomLineWithin(book: Book, cfg: PlanTargetsConfig, t: TargetLine)
    ensures 0.0 <= RoomLine(book, cfg, t) <= Room(book, cfg, t)
  {
    if Price(book, t.symbol).Some? && Headroom(book, cfg, t) > 0.0 {
      BudgetLineIsLast(Room(book, cfg, t), Price(book, t.symbol).value, cfg.minLineUsd);
    }
  }

  /** With ample cash no whole-share plan beats the plan exactly when no target is better passed:
      rooms, prices, cap and minimum line alone decide. */
  lemma AmplePlanIsBestExactly(book: Book, cfg: PlanTargetsConfig, targets: seq<TargetLine>, amount: real)
    requires WholeCents(amount) && WholeCentPrices(book, targets) && amount >= AmpleCash(book, cfg, targets)
    ensures NoWholeSharePlanBeats(book, cfg, targets, amount, PlanSpends(book, cfg, targets, amount))
       <==> forall t | t in targets :: !BetterPassed(book, cfg, t)
  {
    RoomNonNegative(book, cfg, targets);
    CostsNonNegative(book, cfg, targets);
    var xs := PlanSpends(book, cfg, targets, amount);
    AmpleLines(book, cfg, targets, amount);
    if t :| t in targets && BetterPassed(book, cfg, t) {
      var i :| 0 <= i < |targets| && targets[i] == t;
      PassedLineBeats(book, cfg, targets, amount, i);
    } else {
      forall ys | WholeSharePlan(book, cfg, targets, amount, ys)
        ensures DollarGap(book, targets, xs) <= DollarGap(book, targets, ys)
      {
        forall i | 0 <= i < |xs| ensures Gap(book, targets[i], xs[i]) <= Gap(book, targets[i], ys[i]) {
          UnpassedLineIsBest(book, cfg, targets, amount, ys, i);
        }
        GapsAddUp(book, targets, xs, ys);
      }
    }
  }

  lemma PassedLineBeats(book: Book, cfg: PlanTargetsConfig, targets: seq<TargetLine>, amount: real, i: nat)
    requires WholeCents(amount) && WholeCentPrices(book, targets) && amount >= AmpleCash(book, cfg, targets)
    requires amount >= 0.0 && i < |targets| && BetterPassed(book, cfg, targets[i])
    ensures !NoWholeSharePlanBeats(book, cfg, targets, amount, PlanSpends(book, cfg, targets, amount))
  {
    var t, xs := targets[i], PlanSpends(book, cfg, targets, amount);
    AmpleLines(book, cfg, targets, amount);
    PlanIsWithinRoom(book, cfg, targets, amount);
    SpareCoversStep(book, cfg, targets, xs, i);
    UnspentCashBeatsThePlan(book, cfg, targets, amount, i);
  }

  /** What ample cash leaves beside the lines covers any one target's step to its next line. */
  lemma {:induction false} SpareCoversStep(
    book: Book, cfg: PlanTargetsConfig, targets: seq<TargetLine>, xs: seq<real>, i: nat)
    requires WithinRoom(book, cfg, targets, xs) && i < |xs| && xs[i] == RoomLine(book, cfg, targets[i])
    requires Price(book, targets[i].symbol).Some?
    ensures NextLine(Price(book, targets[i].symbol).value, cfg.minLineUsd, xs[i])
         <= AmpleCash(book, cfg, targets) - Total(xs) + xs[i]
    decreases |targets|
  {
    RoomNonNegative(book, cfg, targets[1..]);
    CostsNonNegative(book, cfg, targets[1..]);
    FullTotalIsFull(book, cfg, targets, xs);
    FullTotalIsFull(book, cfg, targets[1..], xs[1..]);
    if i == 0 {
      LeastLine(Price(book, targets[0].symbol).value, cfg.minLineUsd);
    } else {
      SpareCoversStep(book, cfg, targets[1..], xs[1..], i - 1);
    }
  }

  lemma UnpassedLineIsBest(
    book: Book, cfg: PlanTargetsConfig, targets: seq<TargetLine>, amount: real, ys: seq<real>, i: nat)
    requires WholeCents(amount) && WholeCentPrices(book, targets) && amount >= AmpleCash(book, cfg, targets)
    requires amount >= 0.0 && WholeSharePlan(book, cfg, targets, amount, ys) && i < |targets|
    requires !BetterPassed(book, cfg, targets[i])
    ensures Gap(book, targets[i], RoomLine(book, cfg, targets[i])) <= Gap(book, targets[i], ys[i])
  {
    assert targets[i] in targets;
    AmpleForEach(book, cfg, targets, i);
    EnoughDecides(book, cfg, targets[i], amount);
    LineIsBestExactly(book, cfg, targets[i], amount);
    LineOfPlan(book, cfg, targets, amount, ys, i);
  }

  /** When the minimum line is at most one share: exactly when more than half a share's price is
      left of the room while the cap admits one more share. */
  lemma HalfAShareDecides(book: Book, cfg: PlanTargetsConfig, t: TargetLine)
    requires Price(book, t.symbol).Some? && cfg.minLineUsd <= Price(book, t.symbol).value
    ensures var price, x := Price(book, t.symbol).value, RoomLine(book, cfg, t);
      BetterPassed(book, cfg, t)
      <==> Room(book, cfg, t) - x > price / 2.0 && CapAdmits(book, cfg, t, x + price)
  {
    RoomLineWithin(book, cfg, t);
    SharesOrder(0, 1, Price(book, t.symbol).value);
  }

  /** A plan nothing fractional beats is beaten by no whole-share plan. */
  lemma FractionalBestIsBest(book: Book, cfg: PlanTargetsConfig, amount: real, xs: seq<real>)
    requires |xs| == |cfg.targets| && NothingBeats(book, cfg, amount, xs)
    ensures NoWholeSharePlanBeats(book, cfg, cfg.targets, amount, xs)
  {
  }

  /** With a single target and any amount of cash, the plan is the best whole-share plan exactly
      when the cash does not buy an improving next line. */
  lemma OneTargetIsBestExactly(book: Book, cfg: PlanTargetsConfig, t: TargetLine, amount: real)
    requires amount >= 0.0 && WholeCents(amount) && WholeCentPrices(book, [t])
    ensures var xs := PlanSpends(book, cfg, [t], amount);
      NoWholeSharePlanBeats(book, cfg, [t], amount, xs) <==> !Improvable(book, cfg, t, amount, xs[0])
  {
    var xs := PlanSpends(book, cfg, [t], amount);
    assert t in [t] && [t][1..] == [];
    assert xs[0] == Usd(Decide(book, cfg, t, amount));
    assert xs[1..] == [] && Total(xs) == xs[0];
    LineIsBestExactly(book, cfg, t, amount);
    if Improvable(book, cfg, t, amount, xs[0]) {
      UnspentCashBeatsThePlan(book, cfg, [t], amount, 0);
    } else {
      forall ys | WholeSharePlan(book, cfg, [t], amount, ys)
        ensures DollarGap(book, [t], xs) <= DollarGap(book, [t], ys)
      {
        LineOfPlan(book, cfg, [t], amount, ys, 0);
        assert LineWithin(book, cfg, t, amount, ys[0]);
        GapsAddUp(book, [t], xs, ys);
      }
    }
  }

  // ---------- Any amount of cash ----------

  /** The first line past the room, the largest worth considering. */
  function LastLine(book: Book, cfg: PlanTargetsConfig, t: TargetLine): real {
    if Price(book, t.symbol).None? then 0.0
    else NextLine(Price(book, t.symbol).value, cfg.minLineUsd, RoomLine(book, cfg, t))
  }

  /** A plan that passes no target by more than its first line past the room: there are finitely many. */
  ghost predicate Trimmed(book: Book, cfg: PlanTargetsConfig, targets: seq<TargetLine>, ys: seq<real>) {
    |ys| == |targets| && forall i | 0 <= i < |ys| :: ys[i] <= LastLine(book, cfg, targets[i])
  }

  function Trim(book: Book, cfg: PlanTargetsConfig, targets: seq<TargetLine>, ys: seq<real>): (zs: seq<real>)
    requires |ys| == |targets|
    ensures |zs| == |ys| && forall i | 0 <= i < |zs| :: zs[i] == Min(ys[i], LastLine(book, cfg, targets[i]))
  {
    seq(|ys|, i requires 0 <= i < |ys| => Min(ys[i], LastLine(book, cfg, targets[i])))
  }

  lemma RoomLineFits(book: Book, cfg: PlanTargetsConfig, t: TargetLine)
    ensures Fits(book, cfg, t, RoomLine(book, cfg, t))
  {
    if Price(book, t.symbol).Some? {
      var price := Price(book, t.symbol).value;
      var k := Shares(Room(book, cfg, t), price);
      SharesOfCost(k, price);
      CostGrows(k, price);
    }
  }

  lemma TrimmedLine(book: Book, cfg: PlanTargetsConfig, t: TargetLine, y: real)
    requires Fits(book, cfg, t, y) && Allowed(book, cfg, t, y)
    ensures var z := Min(y, LastLine(book, cfg, t));
      Fits(book, cfg, t, z) && Allowed(book, cfg, t, z) && 0.0 <= z <= y && Gap(book, t, z) <= Gap(book, t, y)
  {
    if Price(book, t.symbol).Some? {
      var price := Price(book, t.symbol).value;
      RoomLineFits(book, cfg, t);
      NextIsNext(book, cfg, t, RoomLine(book, cfg, t), y);
      LastLinePassesRoom(book, cfg, t);
    }
  }

  lemma LastLinePassesRoom(book: Book, cfg: PlanTargetsConfig, t: TargetLine)
    requires Price(book, t.symbol).Some?
    ensures 0.0 <= Room(book, cfg, t) < LastLine(book, cfg, t)
  {
    var price := Price(book, t.symbol).value;
    if Headroom(book, cfg, t) > 0.0 {
      BudgetLineIsLast(Room(book, cfg, t), price, cfg.minLineUsd);
    } else {
      LeastLine(price, cfg.minLineUsd);
      CostGrows(LeastShares(price, cfg.minLineUsd), price);
    }
  }

  lemma {:induction false} TotalsCompare(xs: seq<real>, ys: seq<real>)
    requires |xs| == |ys| && forall i | 0 <= i < |xs| :: xs[i] <= ys[i]
    ensures Total(xs) <= Total(ys)
  {
    if |xs| > 0 {
      TotalsCompare(xs[1..], ys[1..]);
    }
  }

  /** Trimming keeps a whole-share plan one, spends no more and leaves no larger gap. */
  lemma TrimmingIsNoLoss(book: Book, cfg: PlanTargetsConfig, targets: seq<TargetLine>, amount: real, ys: seq<real>)
    requires WholeSharePlan(book, cfg, targets, amount, ys)
    ensures var zs := Trim(book, cfg, targets, ys);
      && WholeSharePlan(book, cfg, targets, amount, zs) && Trimmed(book, cfg, targets, zs)
      && DollarGap(book, targets, zs) <= DollarGap(book, targets, ys)
  {
    var zs := Trim(book, cfg, targets, ys);
    forall i | 0 <= i < |zs|
      ensures Fits(book, cfg, targets[i], zs[i]) && Allowed(book, cfg, targets[i], zs[i]) && zs[i] <= ys[i]
      ensures Gap(book, targets[i], zs[i]) <= Gap(book, targets[i], ys[i])
    {
      TrimmedLine(book, cfg, targets[i], ys[i]);
    }
    TotalsCompare(zs, ys);
    GapsAddUp(book, targets, zs, ys);
  }

  /** With any cash, prices and minimum line: no whole-share plan beats an allocation exactly when none
      of the finitely many trimmed ones does. */
  lemma TrimmedPlansDecide(book: Book, cfg: PlanTargetsConfig, targets: seq<TargetLine>, amount: real, xs: seq<real>)
    requires |xs| == |targets|
    ensures NoWholeSharePlanBeats(book, cfg, targets, amount, xs)
       <==> forall zs | WholeSharePlan(book, cfg, targets, amount, zs) && Trimmed(book, cfg, targets, zs) ::
              DollarGap(book, targets, xs) <= DollarGap(book, targets, zs)
  {
    if forall zs | WholeSharePlan(book, cfg, targets, amount, zs) && Trimmed(book, cfg, targets, zs) ::
      DollarGap(book, targets, xs) <= DollarGap(book, targets, zs)
    {
      forall ys | WholeSharePlan(book, cfg, targets, amount, ys)
        ensures DollarGap(book, targets, xs) <= DollarGap(book, targets, ys)
      {
        TrimmingIsNoLoss(book, cfg, targets, amount, ys);
      }
    }
  }

  // ---------- Books on which the plan is not the best ----------

  lemma ShortGaps(priceA: real, priceB: real, minLine: real)
    requires priceA > 0.0 && priceB > 0.0
    ensures var book := ShortBook(priceA, priceB);
      && DollarGap(book, SHORT_TARGETS, [0.0, 100.0]) == 70.0
      && DollarGap(book, SHORT_TARGETS, [60.0, 0.0]) == 110.0 && DollarGap(book, SHORT_TARGETS, [70.0, 0.0]) == 100.0
  {
    ShortBookRoom(priceA, priceB, minLine);
  }

  lemma TwoSharesOfB(priceB: real, shares: int, cfg: PlanTargetsConfig, priceA: real)
    requires priceA > 0.0 && priceB > 0.0 && Cost(shares, priceB) == 100.0 && cfg.minLineUsd <= 100.0
    requires cfg == PlanTargetsConfig(SHORT_TARGETS, None, cfg.minLineUsd)
    ensures WholeSharePlan(ShortBook(priceA, priceB), cfg, SHORT_TARGETS, 100.0, [0.0, 100.0])
  {
    ShortBookRoom(priceA, priceB, cfg.minLineUsd);
    SharesOfCost(shares, priceB);
  }

  /** Whole shares: A takes 60 of the 100 and B's share no longer fits, while the plan that gives A
      nothing and B two shares leaves a smaller gap. */
  lemma WholeSharesCanMissTheOptimum()
    ensures var book, cfg := ShortBook(60.0, 50.0), PlanTargetsConfig(SHORT_TARGETS, None, 0.0);
      var xs := PlanSpends(book, cfg, SHORT_TARGETS, 100.0);
      && xs == [60.0, 0.0] && WholeSharePlan(book, cfg, SHORT_TARGETS, 100.0, [0.0, 100.0])
      && DollarGap(book, SHORT_TARGETS, [0.0, 100.0]) < DollarGap(book, SHORT_TARGETS, xs)
  {
    var book, cfg := ShortBook(60.0, 50.0), PlanTargetsConfig(SHORT_TARGETS, None, 0.0);
    SixtyForA();
    ShortGaps(60.0, 50.0, 0.0);
    TwoSharesOfB(50.0, 2, cfg, 60.0);
  }

  /** The minimum line: A takes 70 of the 100 and what is left is below the minimum, while a plan of
      whole shares with no line below it gives B all of the 100, fills B and leaves a smaller gap. */
  lemma MinimumLineCanMissTheOptimum()
    ensures var book, cfg := ShortBook(1.0, 1.0), PlanTargetsConfig(SHORT_TARGETS, None, 60.0);
      var xs := PlanSpends(book, cfg, SHORT_TARGETS, 100.0);
      && xs == [70.0, 0.0] && WholeSharePlan(book, cfg, SHORT_TARGETS, 100.0, [0.0, 100.0])
      && DollarGap(book, SHORT_TARGETS, [0.0, 100.0]) < DollarGap(book, SHORT_TARGETS, xs)
  {
    var book, cfg := ShortBook(1.0, 1.0), PlanTargetsConfig(SHORT_TARGETS, None, 60.0);
    SeventyForA();
    ShortGaps(1.0, 1.0, 60.0);
    TwoSharesOfB(1.0, 100, cfg, 1.0);
  }

  const TARGET_A := TargetLine("A", 0.35)

  /** Only A is a target, 70 short. */
  lemma OnlyA(price: real, shares: int)
    requires price > 0.0 && Cost(shares, price) <= 70.0 < Cost(shares, price) + price && shares >= 1
    requires WholeCents(price)
    ensures var book, cfg := ShortBook(price, 1.0), PlanTargetsConfig([TARGET_A], None, 0.0);
      && PlanSpends(book, cfg, [TARGET_A], 100.0) == [Cost(shares, price)]
      && WholeCentPrices(book, [TARGET_A]) && WholeCents(100.0)
      && Room(book, cfg, TARGET_A) == 70.0 && Price(book, "A") == Some(price)
      && forall x: real :: Gap(book, TARGET_A, x) == Abs(x - 70.0) && DollarGap(book, [TARGET_A], [x]) == Abs(x - 70.0)
  {
    var book, cfg := ShortBook(price, 1.0), PlanTargetsConfig([TARGET_A], None, 0.0);
    ShortBookRoom(price, 1.0, 0.0);
    SharesAre(70.0, price, shares);
    CostIsWholeCents(shares, price);
    CostGrows(shares, price);
    CountIsWholeCents(10000);
    Buys(book, cfg, TARGET_A, 100.0, price, shares, Cost(shares, price));
    var plan := Fill(book, cfg, [TARGET_A], 100.0);
    assert plan[0] == Decide(book, cfg, TARGET_A, 100.0);
    forall x: real
      ensures Gap(book, TARGET_A, x) == Abs(x - 70.0) && DollarGap(book, [TARGET_A], [x]) == Abs(x - 70.0)
    {
      assert DollarGap(book, [TARGET_A], [x]) == Gap(book, TARGET_A, x) + DollarGap(book, [], []);
    }
  }

  /** Passing a target can be better: at 40 a share the plan stops at 40, thirty short of the target,
      and a second share ends ten past it. */
  lemma PassingATargetCanBeBetter()
    ensures var book, cfg := ShortBook(40.0, 1.0), PlanTargetsConfig([TARGET_A], None, 0.0);
      && PlanSpends(book, cfg, [TARGET_A], 100.0) == [40.0]
      && WholeSharePlan(book, cfg, [TARGET_A], 100.0, [80.0])
      && DollarGap(book, [TARGET_A], [40.0]) == 30.0 && DollarGap(book, [TARGET_A], [80.0]) == 10.0
  {
    var book, cfg := ShortBook(40.0, 1.0), PlanTargetsConfig([TARGET_A], None, 0.0);
    CountIsWholeCents(4000);
    OnlyA(40.0, 1);
    SharesOfCost(2, 40.0);
    assert [80.0][1..] == [] && Total([80.0]) == 80.0;
  }

  /** At 60 a share the plan buys one. Ten more dollars would close the gap, but no whole-share plan
      comes closer. */
  lemma BestAlthoughFractionsBeatIt()
    ensures var book, cfg := ShortBook(60.0, 1.0), PlanTargetsConfig([TARGET_A], None, 0.0);
      var xs := PlanSpends(book, cfg, [TARGET_A], 100.0);
      && xs == [60.0] && !NothingBeats(book, cfg, 100.0, xs)
      && NoWholeSharePlanBeats(book, cfg, [TARGET_A], 100.0, xs)
  {
    var book, cfg := ShortBook(60.0, 1.0), PlanTargetsConfig([TARGET_A], None, 0.0);
    CountIsWholeCents(6000);
    OnlyA(60.0, 1);
    OneTargetIsBestExactly(book, cfg, TARGET_A, 100.0);
    assert [70.0][1..] == [] && Total([70.0]) == 70.0;
    assert Feasible(book, cfg, [TARGET_A], 100.0, [70.0]);
  }
}
