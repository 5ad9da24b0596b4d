/** The cash-to-targets allocator, api/services/cash_to_targets.py. */
module CashToTargets {
  import opened Wrappers
  import opened Arithmetic
  import opened Decimals

  datatype TargetLine = TargetLine(symbol: string, weight: real)

  datatype PlanTargetsConfig = PlanTargetsConfig(
    targets: seq<TargetLine>,
    maxSinglePosition: Option<real>,
    minLineUsd: real)

  datatype HeldRow = HeldRow(ticker: string, marketValue: Option<real>)

  /** What a plan is computed from: the fixed denominator, today's holdings, cached closes. */
  datatype Book = Book(basis: real, held: seq<HeldRow>, closes: map<string, Option<real>>)

  datatype Reason = AtOrAboveTarget | AtOrAboveCap | Unpriced | MinLineUsd | CashExhausted

  datatype Line = Line(
    symbol: string,
    targetWeight: real,
    weightBefore: real,
    weightAfter: real,
    shares: int,
    usd: real,
    price: real)

  /** What the loop does with one target. */
  datatype Verdict = Buy(line: Line) | Skip(symbol: string, reason: Reason)

  datatype Plan = Plan(
    amountUsd: real,
    allocatedUsd: real,
    unallocatedUsd: real,
    unallocatedReasons: seq<Reason>,
    lines: seq<Line>,
    portfolioValue: real,
    deploymentBasis: real,
    skipped: seq<(string, Reason)>)

  function PortfolioValue(held: seq<HeldRow>): real {
    if |held| == 0 then 0.0
    else held[0].marketValue.GetOr(0.0) + PortfolioValue(held[1..])
  }

  /** The value held under `symbol`; a later row of the same ticker replaces an earlier one. */
  function Existing(held: seq<HeldRow>, symbol: string): real
    decreases |held|
  {
    if |held| == 0 then 0.0
    else if held[|held| - 1].ticker == symbol && symbol != "" then held[|held| - 1].marketValue.GetOr(0.0)
    else Existing(held[..|held| - 1], symbol)
  }

  /** The price a purchase is made at, when there is a positive one. */
  function Price(book: Book, symbol: string): Option<real> {
    if symbol in book.closes && book.closes[symbol].Some? && book.closes[symbol].value > 0.0
    then book.closes[symbol] else None
  }

  function TargetUsd(book: Book, t: TargetLine): real {
    t.weight * book.basis
  }

  function CapUsd(book: Book, cfg: PlanTargetsConfig): Option<real> {
    if cfg.maxSinglePosition.Some? then Some(cfg.maxSinglePosition.value * book.basis) else None
  }

  function Ceiling(book: Book, cfg: PlanTargetsConfig, t: TargetLine): real {
    var cap := CapUsd(book, cfg);
    if cap.None? then TargetUsd(book, t) else Min(TargetUsd(book, t), cap.value)
  }

  function Headroom(book: Book, cfg: PlanTargetsConfig, t: TargetLine): real {
    Ceiling(book, cfg, t) - Existing(book.held, t.symbol)
  }

  function Weight(book: Book, usd: real): real {
    if book.basis > 0.0 then usd / book.basis else 0.0
  }

  /** One pass of the loop body. */
  function Decide(book: Book, cfg: PlanTargetsConfig, t: TargetLine, remaining: real): Verdict {
    var existing := Existing(book.held, t.symbol);
    var price := Price(book, t.symbol);
    var cap := CapUsd(book, cfg);
    var headroom := Headroom(book, cfg, t);
    if price.None? then Skip(t.symbol, Unpriced)
    else if headroom <= 0.0 then
      var overCap := cap.Some? && Ceiling(book, cfg, t) <= cap.value + 0.000000001 && existing >= cap.value;
      Skip(t.symbol, if overCap then AtOrAboveCap else AtOrAboveTarget)
    else if remaining < cfg.minLineUsd then Skip(t.symbol, CashExhausted)
    else
      var shares := Shares(Min(remaining, headroom), price.value);
      var usd := Cents(Cost(shares, price.value));
      if shares <= 0 || usd < cfg.minLineUsd then Skip(t.symbol, MinLineUsd)
      else Buy(Line(t.symbol, t.weight, Weight(book, existing), Weight(book, existing + usd), shares, usd, price.value))
  }

  function Shares(budget: real, price: real): int
    requires price > 0.0
  {
    (budget / price).Floor
  }

  /** What so many shares cost, before rounding. */
  function Cost(shares: int, price: real): real {
    shares as real * price
  }

  function Usd(v: Verdict): real {
    match v
    case Buy(line) => line.usd
    case Skip(_, _) => 0.0
  }

  function Left(remaining: real, v: Verdict): real {
    match v
    case Buy(line) => Cents(remaining - line.usd)
    case Skip(_, _) => remaining
  }

  /** The verdict on each target, in list order, starting with `remaining` to spend. */
  function Fill(book: Book, cfg: PlanTargetsConfig, targets: seq<TargetLine>, remaining: real): (vs: seq<Verdict>)
    ensures |vs| == |targets|
  {
    if |targets| == 0 then []
    else
      var v := Decide(book, cfg, targets[0], remaining);
      [v] + Fill(book, cfg, targets[1..], Left(remaining, v))
  }

  function Spends(vs: seq<Verdict>): (xs: seq<real>)
    ensures |xs| == |vs| && forall i | 0 <= i < |vs| :: xs[i] == Usd(vs[i])
  {
    seq(|vs|, i requires 0 <= i < |vs| => Usd(vs[i]))
  }

  function Total(xs: seq<real>): real {
    if |xs| == 0 then 0.0 else xs[0] + Total(xs[1..])
  }

  function Lines(vs: seq<Verdict>): seq<Line> {
    if |vs| == 0 then [] else (match vs[0] case Buy(l) => [l] case Skip(_, _) => []) + Lines(vs[1..])
  }

  function Skipped(vs: seq<Verdict>): seq<(string, Reason)> {
    if |vs| == 0 then [] else (match vs[0] case Buy(_) => [] case Skip(s, r) => [(s, r)]) + Skipped(vs[1..])
  }

  function LineTotal(lines: seq<Line>): real {
    if |lines| == 0 then 0.0 else lines[0].usd + LineTotal(lines[1..])
  }

  lemma {:induction false} LineTotalIsSpend(vs: seq<Verdict>)
    ensures LineTotal(Lines(vs)) == Total(Spends(vs))
  {
    if |vs| > 0 {
      LineTotalIsSpend(vs[1..]);
      assert Spends(vs)[1..] == Spends(vs[1..]);
      if vs[0].Buy? {
        assert Lines(vs)[1..] == Lines(vs[1..]);
      } else {
        assert Lines(vs) == Lines(vs[1..]);
      }
    }
  }

  lemma {:induction false} LinesConcat(a: seq<Verdict>, v: Verdict)
    ensures Lines(a + [v]) == Lines(a) + Lines([v])
    ensures Skipped(a + [v]) == Skipped(a) + Skipped([v])
  {
    if |a| > 0 {
      assert (a + [v])[1..] == a[1..] + [v];
      LinesConcat(a[1..], v);
    } else {
      assert a + [v] == [v];
    }
  }

  // ---------- The plan ----------

  /** Why money was left over: the reasons met, each once, first met first. */
  function DistinctReasons(skipped: seq<(string, Reason)>): (r: seq<Reason>)
    ensures forall x :: x in r <==> exists i :: 0 <= i < |skipped| && skipped[i].1 == x
    ensures forall i, j | 0 <= i < j < |r| :: r[i] != r[j]
  {
    if |skipped| == 0 then []
    else
      var n := |skipped| - 1;
      var front := DistinctReasons(skipped[..n]);
      if skipped[n].1 in front then front else front + [skipped[n].1]
  }

  function BookOf(held: seq<HeldRow>, closes: map<string, Option<real>>, amount: real): Book {
    Book(PortfolioValue(held) + Max(0.0, amount), held, closes)
  }

  /** Left-over money always comes with a reason; the rounding of shares is the last one. */
  function LeftoverReasons(unspent: real, skipped: seq<(string, Reason)>): (r: seq<Reason>)
    ensures r == [] <==> unspent <= 0.0
    ensures unspent > 0.0 && skipped != [] ==>
      forall x :: x in r <==> exists i :: 0 <= i < |skipped| && skipped[i].1 == x
  {
    if unspent <= 0.0 then []
    else if |skipped| == 0 then [MinLineUsd]
    else
      var reasons := DistinctReasons(skipped);
      assert skipped[0].1 in reasons;
      reasons
  }

  lemma FillStep(book: Book, cfg: PlanTargetsConfig, done: seq<Verdict>, i: nat, remaining: real)
    requires i < |cfg.targets|
    ensures var v := Decide(book, cfg, cfg.targets[i], remaining);
      done + Fill(book, cfg, cfg.targets[i..], remaining)
        == (done + [v]) + Fill(book, cfg, cfg.targets[i + 1..], Left(remaining, v))
  {
    assert cfg.targets[i..][1..] == cfg.targets[i + 1..];
  }

  /** Walks the target list once, spending as it goes; what it collects is what `Fill` says. */
  method FillTargets(book: Book, cfg: PlanTargetsConfig, amount: real)
    returns (lines: seq<Line>, skipped: seq<(string, Reason)>)
    ensures lines == Lines(Fill(book, cfg, cfg.targets, amount))
    ensures skipped == Skipped(Fill(book, cfg, cfg.targets, amount))
  {
    var remaining := amount;
    lines, skipped := [], [];
    ghost var done: seq<Verdict> := [];
    assert cfg.targets[0..] == cfg.targets;
    for i := 0 to |cfg.targets|
      invariant done + Fill(book, cfg, cfg.targets[i..], remaining) == Fill(book, cfg, cfg.targets, amount)
      invariant lines == Lines(done) && skipped == Skipped(done)
    {
      var v := Decide(book, cfg, cfg.targets[i], remaining);
      FillStep(book, cfg, done, i, remaining);
      LinesConcat(done, v);
      match v {
        case Buy(line) =>
          lines := lines + [line];
          remaining := Cents(remaining - line.usd);
        case Skip(symbol, reason) =>
          skipped := skipped + [(symbol, reason)];
      }
      done := done + [v];
    }
    assert done == Fill(book, cfg, cfg.targets, amount);
  }

  method SumLines(lines: seq<Line>) returns (sum: real)
    ensures sum == LineTotal(lines)
  {
    sum := 0.0;
    for i := 0 to |lines|
      invariant sum + LineTotal(lines[i..]) == LineTotal(lines)
    {
      sum := sum + lines[i].usd;
      assert lines[i..][1..] == lines[i + 1..];
    }
  }

  /** Every cent of a whole-cent amount is either in a line or reported as left over, and a
      left-over amount carries a reason. */
  method BuildPlan(
    held: seq<HeldRow>, closes: map<string, Option<real>>, amountUsd: real, cfg: PlanTargetsConfig)
    returns (plan: Plan)
    ensures var amount := Max(0.0, amountUsd);
      var book := BookOf(held, closes, amountUsd);
      var vs := Fill(book, cfg, cfg.targets, amount);
      && plan.lines == Lines(vs) && plan.skipped == Skipped(vs)
      && plan.allocatedUsd == Total(Spends(vs))
      && plan.amountUsd == Cents(amount)
      && plan.unallocatedUsd == Cents(amount - plan.allocatedUsd)
      && plan.portfolioValue == Cents(PortfolioValue(held)) && plan.deploymentBasis == Cents(book.basis)
      && (WholeCents(amount) ==> plan.allocatedUsd + plan.unallocatedUsd == amount)
      && plan.unallocatedReasons == if cfg.targets == [] then [] else LeftoverReasons(plan.unallocatedUsd, plan.skipped)
  {
    var amount := Max(0.0, amountUsd);
    var book := BookOf(held, closes, amountUsd);
    if |cfg.targets| == 0 {
      CountIsWholeCents(0);
      return Plan(Cents(amount), 0.0, Cents(amount), [], [], Cents(PortfolioValue(held)), Cents(book.basis), []);
    }
    var lines, skipped := FillTargets(book, cfg, amount);
    var spent := SumLines(lines);
    LineTotalIsSpend(Fill(book, cfg, cfg.targets, amount));
    FillIsWholeCents(book, cfg, cfg.targets, amount);
    spent := Cents(spent);
    var unspent := Cents(amount - spent);
    if WholeCents(amount) {
      WholeCentsAdd(amount, spent);
    }
    plan := Plan(Cents(amount), spent, unspent, LeftoverReasons(unspent, skipped), lines,
                 Cents(PortfolioValue(held)), Cents(book.basis), skipped);
  }

  lemma {:induction false} FillIsWholeCents(
    book: Book, cfg: PlanTargetsConfig, targets: seq<TargetLine>, remaining: real)
    ensures WholeCents(Total(Spends(Fill(book, cfg, targets, remaining))))
  {
    if |targets| > 0 {
      var v := Decide(book, cfg, targets[0], remaining);
      var rest := Fill(book, cfg, targets[1..], Left(remaining, v));
      FillIsWholeCents(book, cfg, targets[1..], Left(remaining, v));
      assert Spends([v] + rest)[1..] == Spends(rest);
      if v.Buy? {
        CentsWhole(Cost(v.line.shares, v.line.price));
      } else {
        CountIsWholeCents(0);
      }
      WholeCentsAdd(Usd(v), Total(Spends(rest)));
    } else {
      CountIsWholeCents(0);
    }
  }
}
