/** Which amounts the cent rounding of api/services/cash_to_targets.py can overspend: exactly
    those at least half a cent above a whole cent, half a cent itself excepted. */
module CashToTargetsRounding {
  import opened Wrappers
  import opened Arithmetic
  import opened Decimals
  import opened CashToTargets
  import opened CashToTargetsOptimality
  import opened CashToTargetsLimits

  /** The amount's fraction of a cent. */
  function PartOfCent(x: real): real {
    x * 100.0 - (x * 100.0).Floor as real
  }

  /** Below half a cent, rounding only drops the fraction, also after whole cents are taken off. */
  lemma BelowHalfRoundsDown(x: real, usd: real)
    requires PartOfCent(x) < 0.5 && WholeCents(usd)
    ensures Cents(x) <= x && Cents(x - usd) == Cents(x) - usd
  {
    var n := WholeCentsCount(usd);
    var below := (x * 100.0).Floor;
    assert (x - usd) * 100.0 == x * 100.0 - n as real;
    assert ((x - usd) * 100.0).Floor == below - n;
  }

  lemma LineWithinCents(book: Book, cfg: PlanTargetsConfig, t: TargetLine, remaining: real)
    requires remaining >= 0.0
    ensures Usd(Decide(book, cfg, t, remaining)) <= Cents(remaining)
  {
    var v := Decide(book, cfg, t, remaining);
    CountIsWholeCents(0);
    CentsMonotone(0.0, remaining);
    if v.Buy? {
      var budget, price := Min(remaining, Headroom(book, cfg, t)), Price(book, t.symbol).value;
      WholeShares(budget, price);
      CentsMonotone(Cost(Shares(budget, price), price), remaining);
    }
  }

  lemma TotalOfCons(book: Book, cfg: PlanTargetsConfig, targets: seq<TargetLine>, amount: real, v: Verdict)
    requires |targets| > 0 && v == Decide(book, cfg, targets[0], amount)
    ensures Total(PlanSpends(book, cfg, targets, amount))
         == Usd(v) + Total(PlanSpends(book, cfg, targets[1..], Left(amount, v)))
  {
    FillCons(book, cfg, targets, amount, v);
    SpendsCons(v, Fill(book, cfg, targets[1..], Left(amount, v)));
    assert PlanSpends(book, cfg, targets, amount)[1..] == PlanSpends(book, cfg, targets[1..], Left(amount, v));
  }

  /** Less than half a cent above a whole cent, the plan spends at most that whole cent. */
  lemma {:induction false} BelowHalfIsNeverOverspent(
    book: Book, cfg: PlanTargetsConfig, targets: seq<TargetLine>, amount: real)
    requires amount >= 0.0 && PartOfCent(amount) < 0.5
    ensures Total(PlanSpends(book, cfg, targets, amount)) <= Cents(amount) <= amount
    decreases |targets|
  {
    CountIsWholeCents(0);
    CentsMonotone(0.0, amount);
    BelowHalfRoundsDown(amount, 0.0);
    if |targets| > 0 {
      var v := Decide(book, cfg, targets[0], amount);
      TotalOfCons(book, cfg, targets, amount, v);
      LineWithinCents(book, cfg, targets[0], amount);
      if v.Buy? {
        LineBounds(book, cfg, targets[0], amount);
        LeftBounds(book, cfg, targets[0], amount);
        BelowHalfRoundsDown(amount, v.line.usd);
        NeverOverspends(book, cfg, targets[1..], Left(amount, v));
      } else {
        BelowHalfIsNeverOverspent(book, cfg, targets[1..], amount);
      }
    }
  }

  /** Half a cent rounds to nothing, before and after the first line. */
  lemma {:induction false} HalfACentIsNeverOverspent(book: Book, cfg: PlanTargetsConfig, targets: seq<TargetLine>)
    ensures Total(PlanSpends(book, cfg, targets, 0.005)) <= 0.0
    decreases |targets|
  {
    if |targets| > 0 {
      var v := Decide(book, cfg, targets[0], 0.005);
      assert Cents(0.005) == 0.0 by { assert 0.005 * 100.0 == 0.5; }
      TotalOfCons(book, cfg, targets, 0.005, v);
      LineWithinCents(book, cfg, targets[0], 0.005);
      if v.Buy? {
        LineBounds(book, cfg, targets[0], 0.005);
        LeftBounds(book, cfg, targets[0], 0.005);
        NeverOverspends(book, cfg, targets[1..], Left(0.005, v));
      } else {
        HalfACentIsNeverOverspent(book, cfg, targets[1..]);
      }
    }
  }

  ghost predicate Overspends(
    held: seq<HeldRow>, closes: map<string, Option<real>>, cfg: PlanTargetsConfig, amount: real)
  {
    Total(PlanSpends(BookOf(held, closes, amount), cfg, cfg.targets, amount)) > amount
  }

  /** One target for everything, priced at the whole amount. */
  lemma RoundingUpOverspends(amount: real)
    requires amount > 0.0 && Cents(amount) > amount
    ensures Overspends([], map["A" := Some(amount)], PlanTargetsConfig([TargetLine("A", 1.0)], None, 0.0), amount)
  {
    var cfg := PlanTargetsConfig([TargetLine("A", 1.0)], None, 0.0);
    var book := BookOf([], map["A" := Some(amount)], amount);
    assert book.basis == amount && Headroom(book, cfg, cfg.targets[0]) == amount;
    assert Cost(1, amount) == amount;
    SharesAre(amount, amount, 1);
    Buys(book, cfg, cfg.targets[0], amount, amount, 1, Cents(amount));
    var v := Decide(book, cfg, cfg.targets[0], amount);
    TotalOfCons(book, cfg, cfg.targets, amount, v);
    assert PlanSpends(book, cfg, cfg.targets[1..], Left(amount, v)) == [];
  }

  /** A half cent above an even number of cents rounds down, but up again once a cent is spent. */
  lemma HalfAfterACentRoundsUp(m: int)
    requires m >= 1
    ensures var amount := (2 * m) as real / 100.0 + 0.005;
      Cents(amount - 0.01) == (2 * m) as real / 100.0 && Cents(0.01) == 0.01
      && Cents((2 * m) as real / 100.0) == (2 * m) as real / 100.0
  {
    var amount := (2 * m) as real / 100.0 + 0.005;
    assert (amount - 0.01) * 100.0 == (2 * m - 1) as real + 0.5;
    assert ((amount - 0.01) * 100.0).Floor == 2 * m - 1;
    CountIsWholeCents(2 * m);
    CountIsWholeCents(1);
  }

  function TwoWeights(amount: real): seq<TargetLine>
    requires amount > 0.0
  {
    [TargetLine("A", Quotient(0.01, amount + 0.01)), TargetLine("B", Quotient(amount, amount + 0.01))]
  }

  function TwoBook(amount: real, rest: real): Book {
    BookOf([HeldRow("X", Some(0.01))], map["A" := Some(0.01), "B" := Some(rest)], amount)
  }

  function TwoLines(amount: real): PlanTargetsConfig
    requires amount > 0.0
  {
    PlanTargetsConfig(TwoWeights(amount), None, 0.0)
  }

  lemma TwoRooms(amount: real, rest: real)
    requires amount > 0.0 && rest > 0.0
    ensures var book, cfg := TwoBook(amount, rest), TwoLines(amount);
      && Headroom(book, cfg, cfg.targets[0]) == 0.01 && Headroom(book, cfg, cfg.targets[1]) == amount
      && Price(book, "A") == Some(0.01) && Price(book, "B") == Some(rest)
  {
    var book, cfg := TwoBook(amount, rest), TwoLines(amount);
    assert PortfolioValue(book.held) == 0.01 && book.basis == amount + 0.01;
    assert Existing(book.held, "A") == 0.0 && Existing(book.held, "B") == 0.0;
    WeightOverBasis(book, cfg.targets[0], 0.01);
    WeightOverBasis(book, cfg.targets[1], amount);
  }

  lemma WeightOverBasis(book: Book, t: TargetLine, usd: real)
    requires book.basis > 0.0 && t.weight == Quotient(usd, book.basis)
    ensures TargetUsd(book, t) == usd
  {
    QuotientTimes(usd, book.basis);
  }

  lemma OneShare(price: real)
    requires price > 0.0
    ensures Cost(1, price) == price && Shares(price, price) == 1
  {
    SharesAre(price, price, 1);
  }

  /** One cent into A, then everything the rounding left into B. */
  lemma TwoPurchases(amount: real, rest: real)
    requires amount > 0.01 && 0.0 < rest <= amount
    requires Cents(0.01) == 0.01 && Cents(rest) == rest && Cents(amount - 0.01) == rest
    ensures Total(PlanSpends(TwoBook(amount, rest), TwoLines(amount), TwoWeights(amount), amount)) == 0.01 + rest
  {
    var book, cfg := TwoBook(amount, rest), TwoLines(amount);
    TwoRooms(amount, rest);
    OneShare(0.01);
    OneShare(rest);
    Buys(book, cfg, cfg.targets[0], amount, 0.01, 1, 0.01);
    Buys(book, cfg, cfg.targets[1], rest, rest, 1, rest);
    TwoTargets(book, cfg, cfg.targets, amount);
    TotalOfTwo(0.01, rest);
  }

  lemma TotalOfTwo(x: real, y: real)
    ensures Total([x, y]) == x + y
  {
    assert [x, y][1..] == [y];
    assert Total([y]) == y;
  }

  lemma HalfAboveEvenOverspends(m: int)
    requires m >= 1
    ensures var rest := (2 * m) as real / 100.0;
      Overspends([HeldRow("X", Some(0.01))], map["A" := Some(0.01), "B" := Some(rest)], TwoLines(rest + 0.005),
                 rest + 0.005)
  {
    HalfAfterACentRoundsUp(m);
    TwoPurchases((2 * m) as real / 100.0 + 0.005, (2 * m) as real / 100.0);
  }

  lemma HalfAndMore(amount: real) returns (m: int)
    requires amount >= 0.0 && PartOfCent(amount) >= 0.5 && amount != 0.005
    ensures Cents(amount) > amount || (m >= 1 && amount == (2 * m) as real / 100.0 + 0.005)
  {
    var below := (amount * 100.0).Floor;
    m := below / 2;
    if PartOfCent(amount) == 0.5 && below % 2 == 0 {
      assert below == 2 * m && amount * 100.0 == (2 * m) as real + 0.5;
    } else {
      assert RoundHalfEven(amount * 100.0) == below + 1;
    }
  }

  /** No portfolio, price list and configuration makes the plan overspend an amount exactly when
      its fraction of a cent is below one half, or it is half a cent itself. */
  lemma OverspendsExactly(amount: real)
    requires amount >= 0.0
    ensures (forall held, closes, cfg :: !Overspends(held, closes, cfg, amount))
       <==> PartOfCent(amount) < 0.5 || amount == 0.005
  {
    if PartOfCent(amount) < 0.5 || amount == 0.005 {
      forall held, closes, cfg ensures !Overspends(held, closes, cfg, amount) {
        if amount == 0.005 {
          HalfACentIsNeverOverspent(BookOf(held, closes, amount), cfg, cfg.targets);
        } else {
          BelowHalfIsNeverOverspent(BookOf(held, closes, amount), cfg, cfg.targets, amount);
        }
      }
    } else {
      var m := HalfAndMore(amount);
      if Cents(amount) > amount {
        RoundingUpOverspends(amount);
      } else {
        HalfAboveEvenOverspends(m);
      }
    }
  }
}
