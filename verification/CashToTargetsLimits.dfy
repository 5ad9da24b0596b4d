/** Exactly when the plan of api/services/cash_to_targets.py is as good as fractional allocations are,
    and books on which its rounding shows. */
module CashToTargetsLimits {
  import opened Wrappers
  import opened Arithmetic
  import opened Decimals
  import opened CashToTargets
  import opened CashToTargetsOptimality

  // ---------- When the plan is optimal ----------

  /** No feasible allocation has a smaller total gap. */
  ghost predicate NothingBeats(book: Book, cfg: PlanTargetsConfig, amount: real, xs: seq<real>)
    requires |xs| == |cfg.targets|
  {
    forall ys | Feasible(book, cfg, cfg.targets, amount, ys) ::
      DollarGap(book, cfg.targets, xs) <= DollarGap(book, cfg.targets, ys)
  }

  lemma {:induction false} PlanIsWithinRoom(book: Book, cfg: PlanTargetsConfig, targets: seq<TargetLine>, amount: real)
    requires amount >= 0.0 && WholeCentPrices(book, targets)
    ensures WithinRoom(book, cfg, targets, Spends(Fill(book, cfg, targets, amount)))
    decreases |targets|
  {
    if |targets| > 0 {
      var v := Decide(book, cfg, targets[0], amount);
      assert targets[0] in targets && forall t | t in targets[1..] :: t in targets;
      LineBounds(book, cfg, targets[0], amount);
      LeftBounds(book, cfg, targets[0], amount);
      PlanIsWithinRoom(book, cfg, targets[1..], Left(amount, v));
      var rest := Fill(book, cfg, targets[1..], Left(amount, v));
      assert Spends([v] + rest)[1..] == Spends(rest);
    }
  }

  /** At whole-cent prices the plan is as good as the fractional optimum, and nothing feasible
      beats it, exactly when it spends the amount or, if that is less, all the room there is. */
  lemma OptimalExactlyWhenSpent(book: Book, cfg: PlanTargetsConfig, amount: real)
    requires amount >= 0.0 && WholeCentPrices(book, cfg.targets)
    ensures var xs, fs := Spends(Fill(book, cfg, cfg.targets, amount)), FractionalFill(book, cfg, cfg.targets, amount);
      var most := Min(amount, TotalRoom(book, cfg, cfg.targets));
      && (DollarGap(book, cfg.targets, xs) == DollarGap(book, cfg.targets, fs) <==> Total(xs) == most)
      && (NothingBeats(book, cfg, amount, xs) <==> Total(xs) >= most)
  {
    var xs, fs := Spends(Fill(book, cfg, cfg.targets, amount)), FractionalFill(book, cfg, cfg.targets, amount);
    PlanIsWithinRoom(book, cfg, cfg.targets, amount);
    WithinRoomDropsGapBySpend(book, cfg, cfg.targets, xs);
    FractionalFillSpends(book, cfg, cfg.targets, amount);
    WithinRoomDropsGapBySpend(book, cfg, cfg.targets, fs);
    forall ys | Feasible(book, cfg, cfg.targets, amount, ys)
      ensures DollarGap(book, cfg.targets, fs) <= DollarGap(book, cfg.targets, ys)
    {
      FractionalFillIsOptimal(book, cfg, cfg.targets, amount, ys);
    }
    FractionalIsFeasible(book, cfg, amount);
  }

  lemma FractionalIsFeasible(book: Book, cfg: PlanTargetsConfig, amount: real)
    requires amount >= 0.0
    ensures Feasible(book, cfg, cfg.targets, amount, FractionalFill(book, cfg, cfg.targets, amount))
  {
    var fs := FractionalFill(book, cfg, cfg.targets, amount);
    FractionalFillSpends(book, cfg, cfg.targets, amount);
    RoomNonNegative(book, cfg, cfg.targets);
    forall i | 0 <= i < |fs| ensures Allowed(book, cfg, cfg.targets[i], fs[i]) {
      RoomIsAllowed(book, cfg, cfg.targets[i], fs[i]);
    }
  }

  // ---------- When that can be told from rooms and prices ----------

  /** `x` can be spent on `t` to the cent: nothing, or whole shares worth at least the minimum. */
  predicate Fits(book: Book, cfg: PlanTargetsConfig, t: TargetLine, x: real) {
    x == 0.0
    || (Price(book, t.symbol).Some? && x >= cfg.minLineUsd && x > 0.0
        && Cost(Shares(x, Price(book, t.symbol).value), Price(book, t.symbol).value) == x)
  }

  lemma CostGrows(n: int, price: real)
    requires price > 0.0
    ensures n >= 1 ==> Cost(n, price) > 0.0
    ensures n <= 0 ==> Cost(n, price) <= 0.0
  {
    ProductMonotone(0.0, n as real, price);
    ProductMonotone(n as real, 0.0, price);
  }

  lemma OneShareMore(n: int, price: real)
    ensures Cost(n + 1, price) == Cost(n, price) + price
  {
    var k, x := n + 1, n as real;
    assert k as real == x + 1.0;
    Distribute(price, x, 1.0);
    assert Product(x + 1.0, price) == Product(x, price) + price;
  }

  lemma CostMonotone(m: int, n: int, price: real)
    requires price > 0.0
    ensures m <= n ==> Cost(m, price) <= Cost(n, price)
    ensures m < n ==> Cost(m, price) < Cost(n, price)
  {
    ProductMonotone(m as real, n as real, price);
    CostIsProduct(m, price);
    CostIsProduct(n, price);
  }

  lemma SharesOrder(m: int, n: int, price: real)
    requires price > 0.0
    ensures m <= n <==> Cost(m, price) <= Cost(n, price)
    ensures Cost(n + 1, price) == Cost(n, price) + price
  {
    CostMonotone(m, n, price);
    CostMonotone(n, m, price);
    OneShareMore(n, price);
  }

  lemma CostIsWholeCents(n: int, price: real)
    requires WholeCents(price)
    ensures WholeCents(Cost(n, price))
  {
    WholeCentsTimes(n, price);
  }

  /** A target's line is its whole budget exactly when the budget fits. */
  lemma LineIsBudgetExactly(book: Book, cfg: PlanTargetsConfig, t: TargetLine, remaining: real)
    requires remaining >= 0.0
    requires Price(book, t.symbol).Some? ==> WholeCents(Price(book, t.symbol).value)
    ensures Usd(Decide(book, cfg, t, remaining)) == Min(remaining, Room(book, cfg, t))
       <==> Fits(book, cfg, t, Min(remaining, Room(book, cfg, t)))
  {
    var budget := Min(remaining, Room(book, cfg, t));
    if Price(book, t.symbol).Some? && budget > 0.0 {
      var price := Price(book, t.symbol).value;
      var shares := Shares(budget, price);
      WholeShares(budget, price);
      CostGrows(shares, price);
      CostIsWholeCents(shares, price);
    }
  }

  lemma LeftIsExact(book: Book, cfg: PlanTargetsConfig, t: TargetLine, remaining: real)
    requires remaining >= 0.0 && WholeCents(remaining)
    ensures var v := Decide(book, cfg, t, remaining);
      Left(remaining, v) == remaining - Usd(v) && WholeCents(Left(remaining, v)) && Left(remaining, v) >= 0.0
  {
    LineBounds(book, cfg, t, remaining);
    LeftBounds(book, cfg, t, remaining);
  }

  ghost predicate AllFit(book: Book, cfg: PlanTargetsConfig, targets: seq<TargetLine>, fs: seq<real>) {
    |fs| == |targets| && forall i | 0 <= i < |fs| :: Fits(book, cfg, targets[i], fs[i])
  }

  lemma SpendsCons(v: Verdict, vs: seq<Verdict>)
    ensures Spends([v] + vs) == [Usd(v)] + Spends(vs)
  {
  }

  lemma FillCons(book: Book, cfg: PlanTargetsConfig, targets: seq<TargetLine>, amount: real, v: Verdict)
    requires |targets| > 0 && v == Decide(book, cfg, targets[0], amount)
    ensures Fill(book, cfg, targets, amount) == [v] + Fill(book, cfg, targets[1..], Left(amount, v))
  {
  }

  /** The first target's spending `usd`, its fractional share `x`, and what the plan goes on with. */
  lemma PlanHead(book: Book, cfg: PlanTargetsConfig, targets: seq<TargetLine>, amount: real)
    returns (usd: real, x: real, left: real)
    requires |targets| > 0 && amount >= 0.0 && WholeCents(amount) && WholeCentPrices(book, targets)
    ensures x == Min(amount, Room(book, cfg, targets[0])) && left == amount - usd && WholeCents(left) && left >= 0.0
    ensures usd == x <==> Fits(book, cfg, targets[0], x)
    ensures PlanSpends(book, cfg, targets, amount) == [usd] + PlanSpends(book, cfg, targets[1..], left)
  {
    var t := targets[0];
    assert t in targets;
    var v := Decide(book, cfg, t, amount);
    LineIsBudgetExactly(book, cfg, t, amount);
    LeftIsExact(book, cfg, t, amount);
    FillCons(book, cfg, targets, amount, v);
    SpendsCons(v, Fill(book, cfg, targets[1..], Left(amount, v)));
    usd, x, left := Usd(v), Min(amount, Room(book, cfg, t)), Left(amount, v);
  }

  lemma FractionalCons(
    book: Book, cfg: PlanTargetsConfig, targets: seq<TargetLine>, amount: real, x: real, rest: real)
    requires |targets| > 0 && x == Min(amount, Room(book, cfg, targets[0])) && rest == amount - x
    ensures FractionalFill(book, cfg, targets, amount) == [x] + FractionalFill(book, cfg, targets[1..], rest)
  {
  }

  function PlanSpends(book: Book, cfg: PlanTargetsConfig, targets: seq<TargetLine>, amount: real): seq<real> {
    Spends(Fill(book, cfg, targets, amount))
  }

  ghost predicate PlanIsFractional(book: Book, cfg: PlanTargetsConfig, targets: seq<TargetLine>, amount: real) {
    PlanSpends(book, cfg, targets, amount) == FractionalFill(book, cfg, targets, amount)
  }

  ghost predicate FractionalFits(book: Book, cfg: PlanTargetsConfig, targets: seq<TargetLine>, amount: real) {
    AllFit(book, cfg, targets, FractionalFill(book, cfg, targets, amount))
  }

  lemma FitsHead(book: Book, cfg: PlanTargetsConfig, targets: seq<TargetLine>, amount: real, x: real, rest: real)
    requires |targets| > 0 && x == Min(amount, Room(book, cfg, targets[0])) && rest == amount - x
    ensures FractionalFits(book, cfg, targets, amount)
       <==> Fits(book, cfg, targets[0], x) && FractionalFits(book, cfg, targets[1..], rest)
  {
    FractionalCons(book, cfg, targets, amount, x, rest);
    ConsFits(book, cfg, targets, x, FractionalFill(book, cfg, targets[1..], rest));
  }

  /** The whole plan is fractional when its head is and the rest is. */
  lemma PlanHeadIsFractional(
    book: Book, cfg: PlanTargetsConfig, targets: seq<TargetLine>, amount: real, usd: real, x: real, left: real)
    requires |targets| > 0 && x == Min(amount, Room(book, cfg, targets[0])) && left == amount - usd
    requires PlanSpends(book, cfg, targets, amount) == [usd] + PlanSpends(book, cfg, targets[1..], left)
    ensures PlanIsFractional(book, cfg, targets, amount)
       <==> usd == x && PlanIsFractional(book, cfg, targets[1..], left)
  {
    var rest := amount - x;
    FractionalCons(book, cfg, targets, amount, x, rest);
    ConsEqual(usd, PlanSpends(book, cfg, targets[1..], left), x, FractionalFill(book, cfg, targets[1..], rest));
    if usd == x {
      assert left == rest;
    }
  }

  /** In whole cents the plan is the fractional plan, target by target, exactly when every entry of
      the fractional plan fits. */
  lemma {:induction false} PlanIsFractionalExactly(
    book: Book, cfg: PlanTargetsConfig, targets: seq<TargetLine>, amount: real)
    requires amount >= 0.0 && WholeCents(amount) && WholeCentPrices(book, targets)
    ensures PlanIsFractional(book, cfg, targets, amount) <==> FractionalFits(book, cfg, targets, amount)
    decreases |targets|
  {
    if |targets| > 0 {
      var usd, x, left := PlanHead(book, cfg, targets, amount);
      var rest := amount - x;
      PlanHeadIsFractional(book, cfg, targets, amount, usd, x, left);
      FitsHead(book, cfg, targets, amount, x, rest);
      if usd == x {
        PricesOfTheRest(book, targets);
        PlanIsFractionalExactly(book, cfg, targets[1..], left);
        assert left == rest;
      }
    }
  }

  lemma PricesOfTheRest(book: Book, targets: seq<TargetLine>)
    requires |targets| > 0 && WholeCentPrices(book, targets)
    ensures WholeCentPrices(book, targets[1..])
  {
    assert forall u | u in targets[1..] :: u in targets;
  }

  lemma ConsEqual(x: real, xs: seq<real>, y: real, ys: seq<real>)
    ensures [x] + xs == [y] + ys <==> x == y && xs == ys
  {
    assert ([x] + xs)[0] == x && ([x] + xs)[1..] == xs;
    assert ([y] + ys)[0] == y && ([y] + ys)[1..] == ys;
  }

  lemma ConsFits(book: Book, cfg: PlanTargetsConfig, targets: seq<TargetLine>, x: real, fs: seq<real>)
    requires |fs| + 1 == |targets|
    ensures AllFit(book, cfg, targets, [x] + fs)
       <==> Fits(book, cfg, targets[0], x) && AllFit(book, cfg, targets[1..], fs)
  {
    var all := [x] + fs;
    assert forall i | 0 <= i < |fs| :: fs[i] == all[i + 1] && targets[1..][i] == targets[i + 1];
    assert forall i | 0 < i < |all| :: all[i] == fs[i - 1] && targets[i] == targets[1..][i - 1];
  }

  ghost predicate RoomsFit(book: Book, cfg: PlanTargetsConfig, targets: seq<TargetLine>) {
    forall t | t in targets :: Fits(book, cfg, t, Room(book, cfg, t))
  }

  lemma {:induction false} AmpleFillIsTheRooms(
    book: Book, cfg: PlanTargetsConfig, targets: seq<TargetLine>, amount: real)
    requires amount >= TotalRoom(book, cfg, targets)
    ensures var fs := FractionalFill(book, cfg, targets, amount);
      forall i | 0 <= i < |fs| :: fs[i] == Room(book, cfg, targets[i])
    decreases |targets|
  {
    if |targets| > 0 {
      RoomNonNegative(book, cfg, targets[1..]);
      AmpleFillIsTheRooms(book, cfg, targets[1..], amount - Room(book, cfg, targets[0]));
    }
  }

  lemma {:induction false} FullTotalIsFull(book: Book, cfg: PlanTargetsConfig, targets: seq<TargetLine>, xs: seq<real>)
    requires WithinRoom(book, cfg, targets, xs)
    ensures Total(xs) <= TotalRoom(book, cfg, targets)
    ensures Total(xs) == TotalRoom(book, cfg, targets)
       <==> forall i | 0 <= i < |xs| :: xs[i] == Room(book, cfg, targets[i])
    decreases |targets|
  {
    if |targets| > 0 {
      FullTotalIsFull(book, cfg, targets[1..], xs[1..]);
      assert forall i | 0 < i < |xs| :: xs[i] == xs[1..][i - 1] && targets[i] == targets[1..][i - 1];
      assert forall i | 0 <= i < |xs[1..]| :: xs[1..][i] == xs[i + 1] && targets[1..][i] == targets[i + 1];
    }
  }

  /** With cash for every room, the plan is optimal exactly when each room is a whole number of
      shares worth at least the minimum line: rooms and prices alone decide. */
  lemma AmpleCashIsOptimalExactly(book: Book, cfg: PlanTargetsConfig, amount: real)
    requires WholeCents(amount) && WholeCentPrices(book, cfg.targets)
    requires amount >= TotalRoom(book, cfg, cfg.targets)
    ensures NothingBeats(book, cfg, amount, Spends(Fill(book, cfg, cfg.targets, amount)))
       <==> RoomsFit(book, cfg, cfg.targets)
  {
    var targets := cfg.targets;
    var xs, fs := Spends(Fill(book, cfg, targets, amount)), FractionalFill(book, cfg, targets, amount);
    RoomNonNegative(book, cfg, targets);
    OptimalExactlyWhenSpent(book, cfg, amount);
    PlanIsWithinRoom(book, cfg, targets, amount);
    FullTotalIsFull(book, cfg, targets, xs);
    AmpleFillIsTheRooms(book, cfg, targets, amount);
    PlanIsFractionalExactly(book, cfg, targets, amount);
    SameAsFractional(book, cfg, targets, xs, fs);
  }

  lemma SameAsFractional(book: Book, cfg: PlanTargetsConfig, targets: seq<TargetLine>, xs: seq<real>, fs: seq<real>)
    requires |xs| == |fs| == |targets| && forall i | 0 <= i < |fs| :: fs[i] == Room(book, cfg, targets[i])
    ensures xs == fs <==> forall i | 0 <= i < |xs| :: xs[i] == Room(book, cfg, targets[i])
    ensures RoomsFit(book, cfg, targets) <==> AllFit(book, cfg, targets, fs)
  {
    if AllFit(book, cfg, targets, fs) {
      forall t | t in targets ensures Fits(book, cfg, t, Room(book, cfg, t)) {
        var i :| 0 <= i < |targets| && targets[i] == t;
        assert Fits(book, cfg, targets[i], fs[i]);
      }
    }
  }

  /** With any amount of cash the plan is optimal when every entry of the fractional plan fits. */
  lemma FittingPlanIsOptimal(book: Book, cfg: PlanTargetsConfig, amount: real)
    requires amount >= 0.0 && WholeCents(amount) && WholeCentPrices(book, cfg.targets)
    requires AllFit(book, cfg, cfg.targets, FractionalFill(book, cfg, cfg.targets, amount))
    ensures NothingBeats(book, cfg, amount, Spends(Fill(book, cfg, cfg.targets, amount)))
  {
    PlanIsFractionalExactly(book, cfg, cfg.targets, amount);
    FractionalFillSpends(book, cfg, cfg.targets, amount);
    OptimalExactlyWhenSpent(book, cfg, amount);
  }

  // ---------- Books on which the plan is not optimal ----------

  lemma SharesAre(budget: real, price: real, shares: int)
    requires price > 0.0 && Cost(shares, price) <= budget < Cost(shares, price) + price
    ensures Shares(budget, price) == shares
  {
    var quotient := budget / price;
    assert budget == quotient * price;
    CostIsProduct(shares, price);
    ProductMonotone(quotient, shares as real, price);
    ProductMonotone(shares as real + 1.0, quotient, price);
    assert (shares as real + 1.0) * price == shares as real * price + price;
  }

  /** A book worth 100 outside the targets, 100 to deploy, and two targets 70 and 100 short. */
  const SHORT_TARGETS := [TargetLine("A", 0.35), TargetLine("B", 0.5)]

  function ShortBook(priceA: real, priceB: real): Book {
    BookOf([HeldRow("X", Some(100.0))], map["A" := Some(priceA), "B" := Some(priceB)], 100.0)
  }

  lemma ShortBookRoom(priceA: real, priceB: real, minLine: real)
    requires priceA > 0.0 && priceB > 0.0
    ensures var book, cfg := ShortBook(priceA, priceB), PlanTargetsConfig(SHORT_TARGETS, None, minLine);
      && Existing(book.held, "A") == 0.0 && Existing(book.held, "B") == 0.0
      && Headroom(book, cfg, SHORT_TARGETS[0]) == 70.0 && Headroom(book, cfg, SHORT_TARGETS[1]) == 100.0
      && Price(book, "A") == Some(priceA) && Price(book, "B") == Some(priceB)
      && Feasible(book, cfg, SHORT_TARGETS, 100.0, [0.0, 100.0])
      && DollarGap(book, SHORT_TARGETS, [0.0, 100.0]) == 70.0
      && forall x | 0.0 <= x <= 70.0 :: DollarGap(book, SHORT_TARGETS, [x, 0.0]) == 170.0 - x
  {
    var book := ShortBook(priceA, priceB);
    assert book.basis == 200.0 by { assert PortfolioValue(book.held) == 100.0; }
    assert Existing(book.held, "A") == 0.0 && Existing(book.held, "B") == 0.0;
    forall x | 0.0 <= x <= 70.0 ensures DollarGap(book, SHORT_TARGETS, [x, 0.0]) == 170.0 - x {
      TwoGaps(book, SHORT_TARGETS, x, 0.0);
    }
    TwoGaps(book, SHORT_TARGETS, 0.0, 100.0);
    assert Total([0.0, 100.0]) == 0.0 + Total([100.0]) == 100.0 by { assert [0.0, 100.0][1..] == [100.0]; }
  }

  lemma Buys(book: Book, cfg: PlanTargetsConfig, t: TargetLine, remaining: real, price: real, shares: int, usd: real)
    requires Price(book, t.symbol) == Some(price) && price > 0.0 && Headroom(book, cfg, t) > 0.0
    requires remaining >= cfg.minLineUsd && shares > 0 && usd >= cfg.minLineUsd
    requires Shares(Min(remaining, Headroom(book, cfg, t)), price) == shares && Cents(Cost(shares, price)) == usd
    ensures var v := Decide(book, cfg, t, remaining); Usd(v) == usd && Left(remaining, v) == Cents(remaining - usd)
  {
  }

  lemma BuysNothing(book: Book, cfg: PlanTargetsConfig, t: TargetLine, remaining: real, price: real)
    requires Price(book, t.symbol) == Some(price) && price > 0.0
    requires remaining < cfg.minLineUsd || Shares(Min(remaining, Headroom(book, cfg, t)), price) <= 0
    ensures Usd(Decide(book, cfg, t, remaining)) == 0.0
  {
  }

  lemma TwoLinesAre(
    book: Book, cfg: PlanTargetsConfig, a: TargetLine, b: TargetLine, amount: real, x: real, left: real, y: real)
    requires Usd(Decide(book, cfg, a, amount)) == x && Left(amount, Decide(book, cfg, a, amount)) == left
    requires Usd(Decide(book, cfg, b, left)) == y
    ensures Spends(Fill(book, cfg, [a, b], amount)) == [x, y]
  {
    TwoTargets(book, cfg, [a, b], amount);
  }

  lemma OneShareAtSixty()
    ensures Shares(70.0, 60.0) == 1 && Cents(Cost(1, 60.0)) == 60.0 && Cents(40.0) == 40.0 && Shares(40.0, 50.0) == 0
  {
    SharesAre(70.0, 60.0, 1);
    SharesAre(40.0, 50.0, 0);
  }

  lemma SixtyForA()
    ensures var book, cfg := ShortBook(60.0, 50.0), PlanTargetsConfig(SHORT_TARGETS, None, 0.0);
      Spends(Fill(book, cfg, SHORT_TARGETS, 100.0)) == [60.0, 0.0]
  {
    var book, cfg := ShortBook(60.0, 50.0), PlanTargetsConfig(SHORT_TARGETS, None, 0.0);
    var a, b := SHORT_TARGETS[0], SHORT_TARGETS[1];
    ShortBookRoom(60.0, 50.0, 0.0);
    OneShareAtSixty();
    Buys(book, cfg, a, 100.0, 60.0, 1, 60.0);
    BuysNothing(book, cfg, b, 40.0, 50.0);
    TwoLinesAre(book, cfg, a, b, 100.0, 60.0, 40.0, 0.0);
  }

  lemma SeventyForA()
    ensures var book, cfg := ShortBook(1.0, 1.0), PlanTargetsConfig(SHORT_TARGETS, None, 60.0);
      Spends(Fill(book, cfg, SHORT_TARGETS, 100.0)) == [70.0, 0.0]
  {
    var book, cfg := ShortBook(1.0, 1.0), PlanTargetsConfig(SHORT_TARGETS, None, 60.0);
    var a, b := SHORT_TARGETS[0], SHORT_TARGETS[1];
    ShortBookRoom(1.0, 1.0, 60.0);
    SeventySharesAtOne();
    Buys(book, cfg, a, 100.0, 1.0, 70, 70.0);
    BuysNothing(book, cfg, b, 30.0, 1.0);
    TwoLinesAre(book, cfg, a, b, 100.0, 70.0, 30.0, 0.0);
  }

  lemma SeventySharesAtOne()
    ensures Shares(70.0, 1.0) == 70 && Cents(Cost(70, 1.0)) == 70.0 && Cents(30.0) == 30.0
  {
    SharesAre(70.0, 1.0, 70);
  }

  /** An amount that is not whole cents: what is left after the first line rounds up, and the
      second line spends the rounding, so the plan buys for more than the amount. */
  lemma SubCentAmountCanOverspend()
    ensures var targets := [TargetLine("A", 0.25), TargetLine("B", 0.5)];
      var cfg := PlanTargetsConfig(targets, None, 0.0);
      var book := BookOf([HeldRow("X", Some(10.0))], map["A" := Some(5.0), "B" := Some(5.01)], 10.006);
      Total(Spends(Fill(book, cfg, targets, 10.006))) == 10.01 > 10.006
  {
    var targets := [TargetLine("A", 0.25), TargetLine("B", 0.5)];
    var cfg := PlanTargetsConfig(targets, None, 0.0);
    var held := [HeldRow("X", Some(10.0))];
    var book := BookOf(held, map["A" := Some(5.0), "B" := Some(5.01)], 10.006);
    assert PortfolioValue(held) == 10.0 && book.basis == 20.006;
    assert Existing(held, "A") == 0.0 && Existing(held, "B") == 0.0;
    SharesAre(5.0015, 5.0, 1);
    SharesAre(5.01, 5.01, 1);
    assert Cents(5.0) == 5.0 && Cents(5.006) == 5.01 && Cents(5.01) == 5.01;
    Buys(book, cfg, targets[0], 10.006, 5.0, 1, 5.0);
    Buys(book, cfg, targets[1], 5.01, 5.01, 1, 5.01);
    TwoTargets(book, cfg, targets, 10.006);
    assert Total([5.0, 5.01]) == 5.0 + Total([5.01]) == 10.01 by { assert [5.0, 5.01][1..] == [5.01]; }
  }

  lemma TwoTargets(book: Book, cfg: PlanTargetsConfig, targets: seq<TargetLine>, amount: real)
    requires |targets| == 2
    ensures var v := Decide(book, cfg, targets[0], amount);
      Spends(Fill(book, cfg, targets, amount)) == [Usd(v), Usd(Decide(book, cfg, targets[1], Left(amount, v)))]
  {
    var v := Decide(book, cfg, targets[0], amount);
    assert Fill(book, cfg, targets[1..], Left(amount, v)) == [Decide(book, cfg, targets[1], Left(amount, v))];
  }

  lemma TwoGaps(book: Book, targets: seq<TargetLine>, x: real, y: real)
    requires |targets| == 2
    ensures DollarGap(book, targets, [x, y]) == Gap(book, targets[0], x) + Gap(book, targets[1], y)
  {
    assert [x, y][1..] == [y];
    assert DollarGap(book, targets[1..], [y]) == Gap(book, targets[1], y);
  }
}
