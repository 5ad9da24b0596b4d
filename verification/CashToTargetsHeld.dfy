/** The plan of api/services/cash_to_targets.py on the rows a user sees: what is already held, what
    each line brings a position to, and why a target is passed over. */
module CashToTargetsHeld {
  import opened Wrappers
  import opened Arithmetic
  import opened Decimals
  import opened CashToTargets
  import opened CashToTargetsOptimality
  import opened CashToTargetsLimits

  // ---------- What is held ----------

  ghost predicate DistinctTickers(held: seq<HeldRow>) {
    forall i, j | 0 <= i < j < |held| :: held[i].ticker != held[j].ticker
  }

  /** A row of the symbol is what counts as held; without one, nothing does. */
  lemma {:induction false} ExistingExactly(held: seq<HeldRow>, symbol: string)
    requires DistinctTickers(held)
    ensures forall row | row in held && row.ticker == symbol && symbol != "" ::
      Existing(held, symbol) == if row.marketValue.Some? then row.marketValue.value else 0.0
    ensures (symbol == "" || forall row | row in held :: row.ticker != symbol) ==> Existing(held, symbol) == 0.0
    decreases |held|
  {
    if |held| > 0 {
      var most, last := held[..|held| - 1], held[|held| - 1];
      assert held == most + [last] && last in held;
      assert forall row | row in most :: row in held;
      ExistingExactly(most, symbol);
      if symbol != "" && last.ticker == symbol {
        forall row | row in held && row.ticker == symbol ensures row == last {
          var i :| 0 <= i < |held| && held[i] == row;
        }
      }
    }
  }

  /** Of several rows of one symbol the last is the one that counts. */
  lemma LaterRowReplaces(held: seq<HeldRow>, row: HeldRow)
    ensures row.ticker != "" ==>
      Existing(held + [row], row.ticker) == if row.marketValue.Some? then row.marketValue.value else 0.0
  {
  }

  /** The portfolio's value is additive over its rows, a row without a value adding nothing. */
  lemma {:induction false} PortfolioValueAdds(a: seq<HeldRow>, b: seq<HeldRow>, row: HeldRow)
    ensures PortfolioValue(a + b) == PortfolioValue(a) + PortfolioValue(b)
    ensures PortfolioValue([row]) == (if row.marketValue.Some? then row.marketValue.value else 0.0)
    ensures PortfolioValue([]) == 0.0
    decreases |a|
  {
    assert [row][1..] == [];
    if |a| == 0 {
      assert a + b == b;
    } else {
      assert (a + b)[1..] == a[1..] + b;
      PortfolioValueAdds(a[1..], b, row);
    }
  }

  // ---------- What a line brings a position to ----------

  /** The line says what was held, what it buys and what is held after, as weights of the basis. */
  ghost predicate Describes(book: Book, t: TargetLine, held: real, line: Line) {
    && line.symbol == t.symbol && line.targetWeight == t.weight
    && t.symbol in book.closes && book.closes[t.symbol] == Some(line.price) && line.price > 0.0
    && line.shares >= 1 && line.usd == line.shares as real * line.price
    && (book.basis > 0.0 ==>
          line.weightBefore * book.basis == held && line.weightAfter * book.basis == held + line.usd)
    && (book.basis <= 0.0 ==> line.weightBefore == 0.0 && line.weightAfter == 0.0)
  }

  /** Within the target, the cap and the cash, in dollars. */
  predicate WithinLimits(book: Book, cfg: PlanTargetsConfig, t: TargetLine, held: real, usd: real) {
    && held + usd <= t.weight * book.basis
    && (cfg.maxSinglePosition.Some? ==> held + usd <= cfg.maxSinglePosition.value * book.basis)
  }

  lemma WeightTimesBasis(book: Book, usd: real)
    ensures book.basis > 0.0 ==> Weight(book, usd) * book.basis == usd
    ensures book.basis <= 0.0 ==> Weight(book, usd) == 0.0
  {
    if book.basis > 0.0 {
      QuotientTimes(usd, book.basis);
    }
  }

  /** At a whole-cent price a line never takes a position past its target or the cap, counting what is
      already held, nor past the cash left. */
  lemma LineKeepsLimits(book: Book, cfg: PlanTargetsConfig, t: TargetLine, remaining: real, held: real)
    requires remaining >= 0.0 && held == Existing(book.held, t.symbol)
    requires Price(book, t.symbol).Some? ==> WholeCents(Price(book, t.symbol).value)
    ensures var v := Decide(book, cfg, t, remaining);
      v.Buy? ==>
        && Describes(book, t, held, v.line) && WithinLimits(book, cfg, t, held, v.line.usd)
        && cfg.minLineUsd <= v.line.usd <= remaining
  {
    var v := Decide(book, cfg, t, remaining);
    if v.Buy? {
      CostIsWholeCents(v.line.shares, v.line.price);
      WholeShares(Min(remaining, Headroom(book, cfg, t)), v.line.price);
      WeightTimesBasis(book, held);
      WeightTimesBasis(book, held + v.line.usd);
    }
  }

  /** The same of every line of the plan, on the rows: each is for a listed target, in list order. */
  lemma {:induction false} PlanKeepsLimits(book: Book, cfg: PlanTargetsConfig, targets: seq<TargetLine>, amount: real)
    requires amount >= 0.0 && WholeCents(amount) && WholeCentPrices(book, targets)
    ensures var vs := Fill(book, cfg, targets, amount);
      forall i | 0 <= i < |targets| && vs[i].Buy? ::
        var held := Existing(book.held, targets[i].symbol);
        Describes(book, targets[i], held, vs[i].line) && WithinLimits(book, cfg, targets[i], held, vs[i].line.usd)
    decreases |targets|
  {
    if |targets| > 0 {
      var t, later := targets[0], targets[1..];
      assert t in targets;
      var v := Decide(book, cfg, t, amount);
      LineKeepsLimits(book, cfg, t, amount, Existing(book.held, t.symbol));
      LeftIsExact(book, cfg, t, amount);
      PricesOfTheRest(book, targets);
      PlanKeepsLimits(book, cfg, later, Left(amount, v));
      FillCons(book, cfg, targets, amount, v);
      var rest := Fill(book, cfg, later, Left(amount, v));
      forall i | 0 < i < |targets|
        ensures Fill(book, cfg, targets, amount)[i] == rest[i - 1] && targets[i] == later[i - 1] {}
    }
  }

  lemma OneLineKeepsLimits(book: Book, cfg: PlanTargetsConfig, amount: real, i: nat, held: real, line: Line)
    requires amount >= 0.0 && WholeCents(amount) && WholeCentPrices(book, cfg.targets) && i < |cfg.targets|
    requires held == Existing(book.held, cfg.targets[i].symbol)
    requires Fill(book, cfg, cfg.targets, amount)[i] == Buy(line)
    ensures WithinLimits(book, cfg, cfg.targets[i], held, line.usd)
  {
    PlanKeepsLimits(book, cfg, cfg.targets, amount);
  }

  /** For holdings with distinct tickers, on the row itself: market value and purchase together stay
      within the target and the cap of today's value plus the cash. */
  lemma HeldRowStaysWithinTarget(
    book: Book, closes: map<string, Option<real>>, amount: real, cfg: PlanTargetsConfig,
    i: nat, row: HeldRow, value: real, line: Line)
    requires amount >= 0.0 && book == BookOf(book.held, closes, amount)
    requires WholeCents(amount) && WholeCentPrices(book, cfg.targets)
    requires DistinctTickers(book.held) && row in book.held && row.marketValue == Some(value)
    requires i < |cfg.targets| && row.ticker == cfg.targets[i].symbol && row.ticker != ""
    requires Fill(book, cfg, cfg.targets, amount)[i] == Buy(line)
    ensures book.basis == PortfolioValue(book.held) + amount
    ensures WithinLimits(book, cfg, cfg.targets[i], value, line.usd)
  {
    ExistingExactly(book.held, row.ticker);
    OneLineKeepsLimits(book, cfg, amount, i, value, line);
  }

  lemma {:induction false} LinesKeepOrder(a: seq<Verdict>, b: seq<Verdict>)
    ensures Lines(a + b) == Lines(a) + Lines(b)
  {
    if |a| == 0 {
      assert a + b == b;
    } else {
      var rest := a[1..];
      LinesKeepOrder(rest, b);
      OneMore(a, rest, b);
      if a[0].Buy? {
        assert Lines(a + b) == [a[0].line] + (Lines(rest) + Lines(b));
      } else {
        assert Lines(a + b) == [] + (Lines(rest) + Lines(b));
      }
    }
  }

  lemma {:induction false} SkipsKeepOrder(a: seq<Verdict>, b: seq<Verdict>)
    ensures Skipped(a + b) == Skipped(a) + Skipped(b)
  {
    if |a| == 0 {
      assert a + b == b;
    } else {
      var rest := a[1..];
      SkipsKeepOrder(rest, b);
      OneMore(a, rest, b);
      if a[0].Buy? {
        assert Skipped(a + b) == [] + (Skipped(rest) + Skipped(b));
      } else {
        assert Skipped(a + b) == [(a[0].symbol, a[0].reason)] + (Skipped(rest) + Skipped(b));
      }
    }
  }

  lemma OneMore(a: seq<Verdict>, rest: seq<Verdict>, b: seq<Verdict>)
    requires |a| > 0 && rest == a[1..]
    ensures (a + b)[0] == a[0] && (a + b)[1..] == rest + b
  {
  }

  /** Every target is either a line or a skip with its reason. */
  lemma {:induction false} EveryTargetIsListed(vs: seq<Verdict>)
    ensures |Lines(vs)| + |Skipped(vs)| == |vs|
    ensures forall line :: line in Lines(vs) <==> Buy(line) in vs
    ensures forall symbol, reason :: (symbol, reason) in Skipped(vs) <==> Skip(symbol, reason) in vs
  {
    if |vs| > 0 {
      EveryTargetIsListed(vs[1..]);
      assert vs == [vs[0]] + vs[1..];
    }
  }

  // ---------- Why a target is passed over ----------

  /** The target in dollars, and the cap if there is one. */
  predicate InDollars(book: Book, cfg: PlanTargetsConfig, t: TargetLine, target: real, cap: Option<real>) {
    && target == t.weight * book.basis
    && cap == if cfg.maxSinglePosition.Some? then Some(cfg.maxSinglePosition.value * book.basis) else None
  }

  predicate AtCap(held: real, cap: Option<real>) {
    cap.Some? && held >= cap.value
  }

  /** Every verdict's reason, exactly. */
  lemma ReasonsExactly(
    book: Book, cfg: PlanTargetsConfig, t: TargetLine, remaining: real, held: real, target: real, cap: Option<real>)
    requires remaining >= 0.0 && held == Existing(book.held, t.symbol) && InDollars(book, cfg, t, target, cap)
    ensures var v := Decide(book, cfg, t, remaining);
      var priced := t.symbol in book.closes && book.closes[t.symbol].Some? && book.closes[t.symbol].value > 0.0;
      && (v.Skip? ==> v.symbol == t.symbol)
      && (v == Skip(t.symbol, Unpriced) <==> !priced)
      && (v == Skip(t.symbol, AtOrAboveCap) <==> priced && AtCap(held, cap))
      && (v == Skip(t.symbol, AtOrAboveTarget) <==> priced && !AtCap(held, cap) && held >= target)
      && (v == Skip(t.symbol, CashExhausted)
          <==> priced && !AtCap(held, cap) && held < target && remaining < cfg.minLineUsd)
      && (v.Buy? || v == Skip(t.symbol, MinLineUsd)
          <==> priced && !AtCap(held, cap) && held < target && remaining >= cfg.minLineUsd)
  {
    RoomInDollars(book, cfg, t, held, target, cap);
  }

  lemma RoomInDollars(
    book: Book, cfg: PlanTargetsConfig, t: TargetLine, held: real, target: real, cap: Option<real>)
    requires held == Existing(book.held, t.symbol) && InDollars(book, cfg, t, target, cap)
    ensures CapUsd(book, cfg) == cap && Ceiling(book, cfg, t) == if cap.None? then target else Min(target, cap.value)
    ensures Headroom(book, cfg, t) == Ceiling(book, cfg, t) - held
    ensures Headroom(book, cfg, t) <= 0.0 <==> AtCap(held, cap) || held >= target
  {
  }

  /** A target with room and cash for the minimum line is bought exactly when the shares that fit make
      a line of at least one share and the minimum. */
  lemma BoughtExactly(
    book: Book, cfg: PlanTargetsConfig, t: TargetLine, remaining: real, price: real, held: real, target: real,
    cap: Option<real>)
    requires remaining >= 0.0 && Price(book, t.symbol) == Some(price) && WholeCents(price)
    requires held == Existing(book.held, t.symbol) && InDollars(book, cfg, t, target, cap)
    requires !AtCap(held, cap) && held < target && remaining >= cfg.minLineUsd
    ensures Decide(book, cfg, t, remaining).Buy?
       <==> exists n: int ::
              && n >= 1 && cfg.minLineUsd <= Cost(n, price) <= remaining && held + Cost(n, price) <= target
              && (cap.Some? ==> held + Cost(n, price) <= cap.value)
  {
    RoomInDollars(book, cfg, t, held, target, cap);
    var budget := Min(remaining, Headroom(book, cfg, t));
    var k := Shares(budget, price);
    WholeShares(budget, price);
    CostIsWholeCents(k, price);
    if n: int :| && n >= 1 && cfg.minLineUsd <= Cost(n, price) <= remaining && held + Cost(n, price) <= target
                 && (cap.Some? ==> held + Cost(n, price) <= cap.value)
    {
      assert Cost(n, price) <= budget;
      FewerCostLess(n, k, price);
    }
  }

  lemma FewerCostLess(n: int, k: int, price: real)
    requires price > 0.0 && Cost(n, price) < Cost(k, price) + price
    ensures n <= k && Cost(n, price) <= Cost(k, price)
  {
    var next := k + 1;
    OneShareMore(k, price);
    CostMonotone(next, n, price);
    CostMonotone(n, k, price);
  }

  /** A held at 500 of a basis of 1000, target 0.6, ten dollars a share: ten shares, not fifty. */
  lemma HalfHeldBuysTheRest()
    ensures var held, t := [HeldRow("A", Some(500.0))], TargetLine("A", 0.6);
      var cfg := PlanTargetsConfig([t], None, 0.0);
      var v := Decide(BookOf(held, map["A" := Some(10.0)], 500.0), cfg, t, 500.0);
      v.Buy? && v.line.shares == 10 && v.line.usd == 100.0 && v.line.weightBefore == 0.5 && v.line.weightAfter == 0.6
  {
    var held, t := [HeldRow("A", Some(500.0))], TargetLine("A", 0.6);
    var book := BookOf(held, map["A" := Some(10.0)], 500.0);
    PortfolioValueAdds([], [], held[0]);
    ExistingExactly(held, "A");
    assert held[0] in held;
    SharesAre(100.0, 10.0, 10);
    assert Cents(Cost(10, 10.0)) == 100.0;
  }
}
