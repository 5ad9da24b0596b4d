/** Tying attributed returns to observed ones over the same window: `_reconcile` in
    api/services/attribution.py, with the time-weighted return of api/services/performance.py. */
module AttributionReconcile {
  import opened Arithmetic
  import opened Wrappers
  import opened AttributionWindow

  datatype Point = Point(day: int, nav: real, flow: real)

  datatype Gap = NoSnapshotOn(day: int) | NonPositiveNav | BenchmarkHistory(why: Reason)

  datatype Reconciliation = Reconciliation(
    available: bool, reasons: seq<Gap>,
    observedPortfolio: Option<real>, observedBenchmark: Option<real>, observedActive: Option<real>,
    portfolioResidual: Option<real>, benchmarkResidual: Option<real>, activeResidual: Option<real>,
    withinTolerance: bool)

  // ---------- The flow-neutralised, time-weighted return ----------

  /** Growth over one period: what the flow does not explain. */
  function Step(prev: Point, cur: Point): real
    requires prev.nav > 0.0
  {
    (cur.nav - cur.flow) / prev.nav
  }

  function PeriodReturns(points: seq<Point>): seq<real> {
    if |points| < 2 then []
    else if points[0].nav > 0.0 then [Step(points[0], points[1]) - 1.0] + PeriodReturns(points[1..])
    else PeriodReturns(points[1..])
  }

  function Linked(rs: seq<real>): real {
    if |rs| == 0 then 1.0 else Product(1.0 + rs[0], Linked(rs[1..]))
  }

  function Twr(points: seq<Point>): Option<real> {
    if |points| < 2 then None else Some(Linked(PeriodReturns(points)) - 1.0)
  }

  /** A return takes two snapshots; over one period it is the growth the flow does not explain. */
  lemma TwrOfOnePeriod(prev: Point, cur: Point)
    requires prev.nav > 0.0
    ensures Twr([]).None? && Twr([prev]).None? && Twr([prev, cur]).Some?
    ensures Product(1.0 + Twr([prev, cur]).value, prev.nav) == cur.nav - cur.flow
  {
    var points := [prev, cur];
    assert points[1..] == [cur];
    assert [Step(prev, cur) - 1.0][1..] == [];
    assert PeriodReturns(points) == [Step(prev, cur) - 1.0] + [];
    LinkedCons(Step(prev, cur), []);
    assert Product(Step(prev, cur), 1.0) == Step(prev, cur);
    QuotientTimes(cur.nav - cur.flow, prev.nav);
    assert 1.0 + Twr(points).value == Quotient(cur.nav - cur.flow, prev.nav);
  }

  method FlowNeutralizedReturns(points: seq<Point>) returns (out: seq<real>)
    ensures out == PeriodReturns(points)
  {
    out := [];
    if |points| == 0 { return; }
    for i := 1 to |points|
      invariant out + PeriodReturns(points[i - 1..]) == PeriodReturns(points)
    {
      assert points[i - 1..][1..] == points[i..] && points[i - 1..][0] == points[i - 1];
      var prev := points[i - 1].nav;
      if prev > 0.0 {
        out := out + [(points[i].nav - points[i].flow) / prev - 1.0];
      }
    }
  }

  function Grown(cum: real, r: real): real {
    Product(cum, 1.0 + r)
  }

  /** The running product as the loop forms it. */
  function LinkedFrom(cum: real, rs: seq<real>): real
    decreases |rs|
  {
    if |rs| == 0 then cum else LinkedFrom(Grown(cum, rs[0]), rs[1..])
  }

  lemma {:induction false} LinkedFromIsProduct(cum: real, rs: seq<real>)
    ensures LinkedFrom(cum, rs) == Product(cum, Linked(rs))
    decreases |rs|
  {
    if |rs| > 0 {
      LinkedFromIsProduct(Grown(cum, rs[0]), rs[1..]);
      ProductAssociates(cum, 1.0 + rs[0], Linked(rs[1..]));
    }
  }

  method WindowTwr(points: seq<Point>) returns (r: Option<real>)
    ensures r == Twr(points)
  {
    if |points| < 2 {
      return None;
    }
    var rs := FlowNeutralizedReturns(points);
    var cum := 1.0;
    for i := 0 to |rs|
      invariant LinkedFrom(cum, rs[i..]) == LinkedFrom(1.0, rs)
    {
      assert rs[i..][1..] == rs[i + 1..] && rs[i..][0] == rs[i];
      cum := Grown(cum, rs[i]);
    }
    LinkedFromIsProduct(1.0, rs);
    r := Some(cum - 1.0);
  }

  lemma {:induction false} LinkedSplit(a: seq<real>, b: seq<real>)
    ensures Linked(a + b) == Product(Linked(a), Linked(b))
    decreases |a|
  {
    if |a| == 0 {
      assert a + b == b;
    } else {
      assert (a + b)[1..] == a[1..] + b && (a + b)[0] == a[0];
      LinkedSplit(a[1..], b);
      ProductAssociates(1.0 + a[0], Linked(a[1..]), Linked(b));
    }
  }

  lemma {:induction false} PeriodsSplit(a: seq<Point>, p: Point, b: seq<Point>)
    ensures PeriodReturns(a + [p] + b) == PeriodReturns(a + [p]) + PeriodReturns([p] + b)
    decreases |a|
  {
    if |a| == 0 {
      assert a + [p] + b == [p] + b && a + [p] == [p];
    } else {
      var rest := a[1..];
      assert (a + [p] + b)[1..] == rest + [p] + b && (a + [p])[1..] == rest + [p];
      PeriodsSplit(rest, p, b);
      assert (rest + [p] + b)[0] == (rest + [p])[0];
    }
  }

  lemma TwrIsGrowth(points: seq<Point>)
    requires |points| >= 2
    ensures Twr(points).Some? && 1.0 + Twr(points).value == Linked(PeriodReturns(points))
  {
  }

  /** The observed return links over adjoining windows, as the attributed legs' do. */
  lemma AdjoiningTwrCompounds(a: seq<Point>, p: Point, b: seq<Point>)
    requires a != [] && b != []
    ensures Twr(a + [p] + b).Some? && Twr(a + [p]).Some? && Twr([p] + b).Some?
    ensures 1.0 + Twr(a + [p] + b).value == Product(1.0 + Twr(a + [p]).value, 1.0 + Twr([p] + b).value)
  {
    PeriodsSplit(a, p, b);
    LinkedSplit(PeriodReturns(a + [p]), PeriodReturns([p] + b));
    TwrIsGrowth(a + [p] + b);
    TwrIsGrowth(a + [p]);
    TwrIsGrowth([p] + b);
  }

  // ---------- Deposits are not growth ----------

  /** Every later valuation and flow, `c` times as large. */
  function Scaled(points: seq<Point>, c: real): (r: seq<Point>)
    ensures |r| == |points|
  {
    if |points| == 0 then [] else [ScaledPoint(points[0], c)] + Scaled(points[1..], c)
  }

  function ScaledPoint(p: Point, c: real): Point {
    Point(p.day, c * p.nav, c * p.flow)
  }

  lemma StepScales(prev: Point, cur: Point, c: real)
    requires c > 0.0 && prev.nav > 0.0
    ensures ScaledPoint(prev, c).nav > 0.0
    ensures Step(ScaledPoint(prev, c), ScaledPoint(cur, c)) == Step(prev, cur)
  {
    PositiveScales(prev.nav, c);
    var x, n := cur.nav - cur.flow, prev.nav;
    assert c * cur.nav - c * cur.flow == c * x;
    assert (c * x) / (c * n) == x / n;
  }

  lemma PositiveScales(x: real, c: real)
    requires c > 0.0
    ensures c * x > 0.0 <==> x > 0.0
  {
  }

  lemma {:induction false} ScalingKeepsReturns(points: seq<Point>, c: real)
    requires c > 0.0
    ensures PeriodReturns(Scaled(points, c)) == PeriodReturns(points)
    decreases |points|
  {
    if |points| >= 2 {
      var scaled, rest := Scaled(points, c), Scaled(points[1..], c);
      assert scaled[1..] == rest && scaled[1] == rest[0] == ScaledPoint(points[1], c);
      PositiveScales(points[0].nav, c);
      if points[0].nav > 0.0 {
        StepScales(points[0], points[1], c);
      }
      ScalingKeepsReturns(points[1..], c);
      assert scaled[0] == ScaledPoint(points[0], c) && (scaled[0].nav > 0.0 <==> points[0].nav > 0.0);
    }
  }

  lemma DepositStep(nav: real, flow: real, c: real)
    ensures c * nav - (flow + (c - 1.0) * nav) == nav - flow
  {
  }

  lemma FirstStep(before: Point, p: Point, q: Point, rest: seq<Point>, rest': seq<Point>)
    requires p.nav - p.flow == q.nav - q.flow
    requires PeriodReturns([p] + rest) == PeriodReturns([q] + rest')
    ensures PeriodReturns([before, p] + rest) == PeriodReturns([before, q] + rest')
  {
    assert ([before, p] + rest)[1..] == [p] + rest && ([before, q] + rest')[1..] == [q] + rest';
  }

  lemma SameFirst(a: Point, s: seq<Point>, t: seq<Point>)
    requires |s| > 0 && |t| > 0 && s[0] == t[0] && PeriodReturns(s) == PeriodReturns(t)
    ensures PeriodReturns([a] + s) == PeriodReturns([a] + t)
  {
    assert ([a] + s)[1..] == s && ([a] + t)[1..] == t;
  }

  lemma {:induction false} SameTail(a: seq<Point>, s: seq<Point>, t: seq<Point>)
    requires |s| > 0 && |t| > 0 && s[0] == t[0] && PeriodReturns(s) == PeriodReturns(t)
    ensures PeriodReturns(a + s) == PeriodReturns(a + t)
    decreases |a|
  {
    if |a| == 0 {
      assert a + s == s && a + t == t;
    } else {
      SameTail(a[1..], s, t);
      assert a + s == [a[0]] + (a[1..] + s) && a + t == [a[0]] + (a[1..] + t);
      SameFirst(a[0], a[1..] + s, a[1..] + t);
    }
  }

  lemma SameTwr(a: seq<Point>, before: Point, p: Point, q: Point, rest: seq<Point>, rest': seq<Point>)
    requires p.nav - p.flow == q.nav - q.flow
    requires PeriodReturns([p] + rest) == PeriodReturns([q] + rest')
    ensures Twr(a + ([before, q] + rest')) == Twr(a + ([before, p] + rest))
  {
    FirstStep(before, p, q, rest, rest');
    SameTail(a, [before, p] + rest, [before, q] + rest');
  }

  lemma LaterReturnsScale(p: Point, q: Point, rest: seq<Point>, c: real)
    requires c > 0.0 && q.nav == ScaledPoint(p, c).nav
    ensures PeriodReturns([p] + rest) == PeriodReturns([q] + Scaled(rest, c))
  {
    ScalingKeepsReturns([p] + rest, c);
    assert ([p] + rest)[1..] == rest;
    FlowOfFirstIsUnread(ScaledPoint(p, c), q, Scaled(rest, c));
  }

  /** A deposit (or withdrawal) recorded as the flow of its day and invested like the rest, so
      that every later value and flow is `c` times what it would have been, changes no return. */
  lemma DepositsAreNotGrowth(a: seq<Point>, before: Point, p: Point, rest: seq<Point>, c: real)
    requires c > 0.0
    ensures var q := Point(p.day, c * p.nav, p.flow + (c - 1.0) * p.nav);
      Twr(a + ([before, q] + Scaled(rest, c))) == Twr(a + ([before, p] + rest))
  {
    var q := Point(p.day, c * p.nav, p.flow + (c - 1.0) * p.nav);
    var scaled := Scaled(rest, c);
    DepositStep(p.nav, p.flow, c);
    LaterReturnsScale(p, q, rest, c);
    SameTwr(a, before, p, q, rest, scaled);
  }

  /** The first point's own flow is never read: it belongs to the period before. */
  lemma FlowOfFirstIsUnread(p: Point, q: Point, rest: seq<Point>)
    requires p.nav == q.nav
    ensures PeriodReturns([p] + rest) == PeriodReturns([q] + rest)
  {
    assert ([p] + rest)[1..] == rest && ([q] + rest)[1..] == rest;
  }

  lemma QuotientChain(a: real, b: real, c: real)
    requires a > 0.0 && b > 0.0
    ensures (b / a) * (c / b) == c / a
  {
  }

  lemma LinkedCons(x: real, rest: seq<real>)
    ensures Linked([x - 1.0] + rest) == Product(x, Linked(rest))
  {
    var rs := [x - 1.0] + rest;
    assert rs[1..] == rest;
    assert 1.0 + rs[0] == x;
  }

  lemma FirstReturn(points: seq<Point>)
    requires |points| >= 2 && points[0].nav > 0.0
    ensures PeriodReturns(points) == [Step(points[0], points[1]) - 1.0] + PeriodReturns(points[1..])
  {
  }

  lemma StepWithoutFlow(prev: Point, cur: Point)
    requires prev.nav > 0.0 && cur.flow == 0.0
    ensures Step(prev, cur) == cur.nav / prev.nav
  {
  }

  /** Without flows the linked growth is the last value over the first. */
  lemma {:induction false} LinkedWithoutFlows(points: seq<Point>)
    requires |points| >= 2
    requires forall i | 0 < i < |points| :: points[i].flow == 0.0
    requires forall i | 0 <= i < |points| - 1 :: points[i].nav > 0.0
    ensures Linked(PeriodReturns(points)) == points[|points| - 1].nav / points[0].nav
    decreases |points|
  {
    StepWithoutFlow(points[0], points[1]);
    FirstReturn(points);
    LinkedCons(points[1].nav / points[0].nav, PeriodReturns(points[1..]));
    if |points| == 2 {
      assert PeriodReturns(points[1..]) == [];
      assert Linked([]) == 1.0;
    } else {
      LinkedWithoutFlows(points[1..]);
      QuotientChain(points[0].nav, points[1].nav, points[|points| - 1].nav);
    }
  }

  /** Without flows the time-weighted return is plain growth, however many snapshots lie between. */
  lemma WithoutFlowsItIsGrowth(points: seq<Point>)
    requires |points| >= 2
    requires forall i | 0 < i < |points| :: points[i].flow == 0.0
    requires forall i | 0 <= i < |points| - 1 :: points[i].nav > 0.0
    ensures 1.0 + Twr(points).value == points[|points| - 1].nav / points[0].nav
  {
    LinkedWithoutFlows(points);
    TwrIsGrowth(points);
  }

  // ---------- The reconciliation ----------

  predicate SpansExactly(points: seq<Point>, anchor: int, end: int) {
    |points| > 0 && points[0].day == anchor && points[|points| - 1].day == end
  }

  predicate PositiveUntilLast(points: seq<Point>) {
    forall i | 0 <= i < |points| - 1 :: points[i].nav > 0.0
  }

  function Minus(a: Option<real>, b: Option<real>): Option<real> {
    if a.Some? && b.Some? then Some(a.value - b.value) else None
  }

  /** The first reason the snapshots give no return over the window, if any does. */
  function PortfolioGaps(points: seq<Point>, anchor: int, end: int): seq<Gap> {
    if |points| == 0 || points[0].day != anchor then [NoSnapshotOn(anchor)]
    else if points[|points| - 1].day != end then [NoSnapshotOn(end)]
    else if PositiveUntilLast(points) then []
    else [NonPositiveNav]
  }

  function BenchmarkGaps(r: Result<real, Reason>): seq<Gap> {
    match r
    case Ok(_) => []
    case Err(why) => [BenchmarkHistory(why)]
  }

  method Reconcile(
    points: seq<Point>, benchmark: seq<ClosePoint>, anchor: int, end: int,
    portfolioReturn: real, benchmarkReturn: real, tolerance: real)
    returns (rec: Reconciliation)
    ensures rec.available <==> rec.reasons == []
    ensures rec.available <==>
      && |points| > 0 && points[0].day == anchor && points[|points| - 1].day == end
      && (forall i | 0 <= i < |points| - 1 :: points[i].nav > 0.0) && WindowReturn(benchmark, anchor, end).Ok?
    ensures rec.reasons == PortfolioGaps(points, anchor, end) + BenchmarkGaps(WindowReturn(benchmark, anchor, end))
    ensures rec.observedPortfolio
         == if SpansExactly(points, anchor, end) && PositiveUntilLast(points) then Twr(points) else None
    ensures rec.observedBenchmark
         == (match WindowReturn(benchmark, anchor, end) case Ok(r) => Some(r) case Err(_) => None)
    ensures rec.observedActive == Minus(rec.observedPortfolio, rec.observedBenchmark)
    ensures rec.portfolioResidual == Minus(rec.observedPortfolio, Some(portfolioReturn))
    ensures rec.benchmarkResidual == Minus(rec.observedBenchmark, Some(benchmarkReturn))
    ensures rec.activeResidual == Minus(rec.observedActive, Some(portfolioReturn - benchmarkReturn))
    ensures rec.activeResidual == Minus(rec.portfolioResidual, rec.benchmarkResidual)
    ensures rec.portfolioResidual.Some? ==>
      rec.observedPortfolio.Some? && portfolioReturn + rec.portfolioResidual.value == rec.observedPortfolio.value
    ensures rec.benchmarkResidual.Some? ==>
      rec.observedBenchmark.Some? && benchmarkReturn + rec.benchmarkResidual.value == rec.observedBenchmark.value
    ensures rec.activeResidual.Some? ==>
      && rec.observedPortfolio.Some? && rec.observedBenchmark.Some?
      && portfolioReturn - benchmarkReturn + rec.activeResidual.value
         == rec.observedPortfolio.value - rec.observedBenchmark.value
    ensures rec.withinTolerance <==> rec.activeResidual.Some? && Abs(rec.activeResidual.value) <= tolerance
    ensures anchor < end ==> (rec.available <==> rec.activeResidual.Some?)
  {
    var reasons := [];
    var observedPort: Option<real> := None;
    if |points| == 0 || points[0].day != anchor {
      reasons := reasons + [NoSnapshotOn(anchor)];
    } else if points[|points| - 1].day != end {
      reasons := reasons + [NoSnapshotOn(end)];
    } else if exists i :: 0 <= i < |points| - 1 && points[i].nav <= 0.0 {
      reasons := reasons + [NonPositiveNav];
    } else {
      observedPort := WindowTwr(points);
    }
    var observedBench: Option<real> := None;
    match WindowReturn(benchmark, anchor, end) {
      case Ok(r) => observedBench := Some(r);
      case Err(why) => reasons := reasons + [BenchmarkHistory(why)];
    }
    rec := Reconciliation(reasons == [], reasons, None, None, None, None, None, None, false);
    if observedPort.Some? {
      rec := rec.(observedPortfolio := observedPort, portfolioResidual := Some(observedPort.value - portfolioReturn));
    }
    if observedBench.Some? {
      rec := rec.(observedBenchmark := observedBench, benchmarkResidual := Some(observedBench.value - benchmarkReturn));
    }
    if observedPort.Some? && observedBench.Some? {
      rec := rec.(observedActive := Some(observedPort.value - observedBench.value));
      rec := rec.(activeResidual := Some(rec.observedActive.value - (portfolioReturn - benchmarkReturn)));
      rec := rec.(withinTolerance := Abs(rec.activeResidual.value) <= tolerance);
    }
  }
}
