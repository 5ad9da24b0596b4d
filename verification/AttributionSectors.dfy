/** Sector weights, sector returns and coverage over one population of holdings:
    `_portfolio_sector_aggregates` and the attributed/unattributed loop of
    `compute_attribution` in api/services/attribution.py. */
module AttributionSectors {
  import opened Arithmetic
  import opened Wrappers
  import opened Sums
  import opened AttributionWindow

  type Ticker = string
  type Sector = string

  datatype Holding = Holding(ticker: Ticker, mv: real)
  datatype Unattributed = Unattributed(ticker: Ticker, mv: real, reason: Reason)
  datatype Aggregates = Aggregates(weights: map<Sector, real>, sectorReturns: map<Sector, real>, coverage: real)

  /** What the aggregation reads about tickers: classified sectors, and cached closes. */
  datatype Inputs = Inputs(
    sectorOf: map<Ticker, Sector>, known: set<Sector>, history: map<Ticker, seq<ClosePoint>>, w: Window)

  // ---------- Which holdings take part ----------

  predicate Classified(inp: Inputs, t: Ticker) {
    t in inp.sectorOf && inp.sectorOf[t] in inp.known
  }

  /** The return a holding contributes, or why it contributes none. */
  function Outcome(inp: Inputs, t: Ticker): Result<real, Reason> {
    if !Classified(inp, t) then Err(NoSector)
    else WindowReturn(if t in inp.history then inp.history[t] else [], inp.w.anchor, inp.w.end)
  }

  /** Why a holding has no return, each cause exactly, and otherwise the return its own closes make over
      the window. */
  lemma OutcomeExactly(inp: Inputs, t: Ticker, series: seq<ClosePoint>, from: ClosePoint, to: ClosePoint)
    requires series == (if t in inp.history then inp.history[t] else []) && Ordered(series)
    ensures var r := Outcome(inp, t);
      var classified := t in inp.sectorOf && inp.sectorOf[t] in inp.known;
      && (r == Err(NoSector) <==> !classified)
      && (r == Err(NoHistory) <==> classified && series == [])
      && (r == Err(ShortHistory) <==> classified && series != [] && series[0].day > inp.w.anchor)
      && (r == Err(Stale)
          <==> classified && series != [] && series[0].day <= inp.w.anchor && series[|series| - 1].day < inp.w.end)
      && (classified && Reaches(series, inp.w.anchor, inp.w.end)
          && LatestOn(series, inp.w.anchor, from) && LatestOn(series, inp.w.end, to) ==>
            if from.close > 0.0 && to.close > 0.0
            then r.Ok? && Product(1.0 + r.value, from.close) == to.close else r == Err(InvalidPrice))
  {
    WindowReturnExactly(series, inp.w.anchor, inp.w.end, from, to);
  }

  predicate Attributable(inp: Inputs, gains: map<Ticker, real>, h: Holding) {
    Classified(inp, h.ticker) && h.ticker in gains
  }

  function Population(inp: Inputs, gains: map<Ticker, real>, hs: seq<Holding>): (r: seq<Holding>)
    ensures forall h :: h in r <==> h in hs && Attributable(inp, gains, h)
  {
    if |hs| == 0 then []
    else
      var most, last := Population(inp, gains, hs[..|hs| - 1]), hs[|hs| - 1];
      if Attributable(inp, gains, last) then most + [last] else most
  }

  // ---------- Sums over lists of holdings ----------

  function SumBy(hs: seq<Holding>, v: Holding -> real): real {
    if |hs| == 0 then 0.0 else SumBy(hs[..|hs| - 1], v) + v(hs[|hs| - 1])
  }

  const MV: Holding -> real := (h: Holding) => h.mv

  function Gain(gains: map<Ticker, real>): Holding -> real {
    (h: Holding) => h.mv * (if h.ticker in gains then gains[h.ticker] else 0.0)
  }

  /** The same, as the source adds it up inside one sector: share of the sector times return. */
  function ShareGain(gains: map<Ticker, real>, sectorMv: real): Holding -> real
    requires sectorMv != 0.0
  {
    (h: Holding) => h.mv / sectorMv * (if h.ticker in gains then gains[h.ticker] else 0.0)
  }

  function SectorSum(inp: Inputs, hs: seq<Holding>, sector: Sector, v: Holding -> real): real {
    if |hs| == 0 then 0.0
    else
      var most, last := SectorSum(inp, hs[..|hs| - 1], sector, v), hs[|hs| - 1];
      if last.ticker in inp.sectorOf && inp.sectorOf[last.ticker] == sector then most + v(last) else most
  }

  function SectorsIn(inp: Inputs, hs: seq<Holding>): set<Sector> {
    set h | h in hs && h.ticker in inp.sectorOf :: inp.sectorOf[h.ticker]
  }

  function BySector(inp: Inputs, hs: seq<Holding>, sectors: set<Sector>, v: Holding -> real): map<Sector, real> {
    map s | s in sectors :: SectorSum(inp, hs, s, v)
  }

  function UnattributedMv(us: seq<Unattributed>): real {
    if |us| == 0 then 0.0 else UnattributedMv(us[..|us| - 1]) + us[|us| - 1].mv
  }

  ghost predicate AllPositive(hs: seq<Holding>) {
    forall h | h in hs :: h.mv > 0.0
  }

  lemma {:induction false} PositiveSum(hs: seq<Holding>)
    requires AllPositive(hs)
    ensures SumBy(hs, MV) >= 0.0 && (SumBy(hs, MV) > 0.0 <==> hs != [])
    decreases |hs|
  {
    if |hs| > 0 {
      assert hs[|hs| - 1] in hs;
      PositiveSum(hs[..|hs| - 1]);
    }
  }

  lemma {:induction false} PositiveSectorSum(inp: Inputs, hs: seq<Holding>, sector: Sector)
    requires AllPositive(hs)
    ensures SectorSum(inp, hs, sector, MV) >= 0.0
    ensures sector in SectorsIn(inp, hs) ==> SectorSum(inp, hs, sector, MV) > 0.0
    decreases |hs|
  {
    if |hs| > 0 {
      var most, last := hs[..|hs| - 1], hs[|hs| - 1];
      assert last in hs && forall h | h in hs :: h in most || h == last;
      PositiveSectorSum(inp, most, sector);
    }
  }

  /** Grouping by sector neither loses nor repeats a holding. */
  lemma {:induction false} SectorsAddUp(inp: Inputs, hs: seq<Holding>, sectors: set<Sector>, v: Holding -> real)
    requires forall h | h in hs :: h.ticker in inp.sectorOf && inp.sectorOf[h.ticker] in sectors
    ensures SumOf(BySector(inp, hs, sectors, v)) == SumBy(hs, v)
    decreases |hs|
  {
    var all := BySector(inp, hs, sectors, v);
    if |hs| == 0 {
      SumZero(all);
    } else {
      var most, last := hs[..|hs| - 1], hs[|hs| - 1];
      assert last in hs;
      var sector := inp.sectorOf[last.ticker];
      var before := BySector(inp, most, sectors, v);
      SectorsAddUp(inp, most, sectors, v);
      SumRemove(all, sector);
      SumRemove(before, sector);
      assert all - {sector} == before - {sector};
    }
  }

  lemma {:induction false} SectorSumMapped(
    inp: Inputs, hs: seq<Holding>, sector: Sector, u: Holding -> real, v: Holding -> real, f: real -> real)
    requires Additive(f) && forall h | h in hs :: u(h) == f(v(h))
    ensures SectorSum(inp, hs, sector, u) == f(SectorSum(inp, hs, sector, v))
    decreases |hs|
  {
    if |hs| > 0 {
      var most, last := hs[..|hs| - 1], hs[|hs| - 1];
      assert last in hs;
      SectorSumMapped(inp, most, sector, u, v, f);
      AdditiveAt(f, SectorSum(inp, most, sector, v), v(last));
    }
  }

  lemma ShareTimesReturn(mv: real, m: real, r: real)
    requires m != 0.0
    ensures mv / m * r == (mv * r) / m
  {
  }

  lemma SectorReturn(inp: Inputs, hs: seq<Holding>, sector: Sector, gains: map<Ticker, real>, m: real)
    requires m != 0.0
    ensures SectorSum(inp, hs, sector, ShareGain(gains, m)) == SectorSum(inp, hs, sector, Gain(gains)) / m
  {
    forall h | h in hs ensures ShareGain(gains, m)(h) == Over(m)(Gain(gains)(h)) {
      ShareTimesReturn(h.mv, m, if h.ticker in gains then gains[h.ticker] else 0.0);
    }
    OverIsAdditive(m);
    SectorSumMapped(inp, hs, sector, ShareGain(gains, m), Gain(gains), Over(m));
  }

  // ---------- The aggregates ----------

  /** Market-value-weighted return of a list of holdings. */
  ghost function WeightedReturn(hs: seq<Holding>, gains: map<Ticker, real>): real
    requires SumBy(hs, MV) != 0.0
  {
    SumBy(hs, Gain(gains)) / SumBy(hs, MV)
  }

  function Products(a: map<Sector, real>, b: map<Sector, real>): map<Sector, real>
    requires a.Keys == b.Keys
  {
    map s | s in a :: a[s] * b[s]
  }

  function Quotients(a: map<Sector, real>, c: real): map<Sector, real>
    requires c != 0.0
  {
    map s | s in a :: a[s] / c
  }

  lemma QuotientsSum(a: map<Sector, real>, c: real)
    requires c != 0.0
    ensures SumOf(Quotients(a, c)) == SumOf(a) / c
  {
    OverIsAdditive(c);
    SumMapped(a, Quotients(a, c), Over(c));
  }

  lemma WeightTimesReturn(m: real, c: real, g: real)
    requires m != 0.0 && c != 0.0
    ensures (m / c) * (g / m) == g / c
  {
  }

  lemma ProductsAreQuotients(mvs: map<Sector, real>, gains: map<Sector, real>, c: real)
    requires mvs.Keys == gains.Keys && c != 0.0 && forall s | s in mvs :: mvs[s] != 0.0
    ensures var rs := map s | s in mvs :: gains[s] / mvs[s];
      Products(Quotients(mvs, c), rs) == Quotients(gains, c)
  {
    var rs := map s | s in mvs :: gains[s] / mvs[s];
    var products, quotients := Products(Quotients(mvs, c), rs), Quotients(gains, c);
    forall s | s in mvs ensures products[s] == quotients[s] {
      WeightTimesReturn(mvs[s], c, gains[s]);
    }
    assert products.Keys == quotients.Keys;
  }

  function Mvs(inp: Inputs, hs: seq<Holding>): map<Sector, real> {
    BySector(inp, hs, SectorsIn(inp, hs), MV)
  }

  /** Each sector's return: the market-value-weighted return of its holdings. */
  function SectorReturns(inp: Inputs, hs: seq<Holding>, gains: map<Ticker, real>): map<Sector, real>
    requires forall s | s in SectorsIn(inp, hs) :: SectorSum(inp, hs, s, MV) > 0.0
  {
    map s | s in SectorsIn(inp, hs) :: SectorSum(inp, hs, s, Gain(gains)) / SectorSum(inp, hs, s, MV)
  }

  ghost predicate Placed(inp: Inputs, hs: seq<Holding>) {
    forall h | h in hs :: h.ticker in inp.sectorOf
  }

  lemma WeightsSumToOne(inp: Inputs, hs: seq<Holding>)
    requires SumBy(hs, MV) > 0.0 && Placed(inp, hs)
    ensures SumOf(Quotients(Mvs(inp, hs), SumBy(hs, MV))) == 1.0
  {
    SectorsAddUp(inp, hs, SectorsIn(inp, hs), MV);
    QuotientsSum(Mvs(inp, hs), SumBy(hs, MV));
    OverItself(SumBy(hs, MV));
  }

  /** Sector weights times sector returns add up to the population's own return. */
  lemma WeightedReturnsAddUp(inp: Inputs, hs: seq<Holding>, gains: map<Ticker, real>)
    requires SumBy(hs, MV) > 0.0 && Placed(inp, hs)
    requires forall s | s in SectorsIn(inp, hs) :: SectorSum(inp, hs, s, MV) > 0.0
    ensures SumOf(Products(Quotients(Mvs(inp, hs), SumBy(hs, MV)), SectorReturns(inp, hs, gains)))
         == WeightedReturn(hs, gains)
  {
    var byGain := BySector(inp, hs, SectorsIn(inp, hs), Gain(gains));
    SectorsAddUp(inp, hs, SectorsIn(inp, hs), Gain(gains));
    ProductsAreQuotients(Mvs(inp, hs), byGain, SumBy(hs, MV));
    assert SectorReturns(inp, hs, gains) == map s | s in Mvs(inp, hs) :: byGain[s] / Mvs(inp, hs)[s];
    QuotientsSum(byGain, SumBy(hs, MV));
  }

  lemma MvsGrow(inp: Inputs, hs: seq<Holding>, h: Holding)
    requires h.ticker in inp.sectorOf
    ensures var sector, before := inp.sectorOf[h.ticker], Mvs(inp, hs);
      Mvs(inp, hs + [h]) == before[sector := (if sector in before then before[sector] else 0.0) + h.mv]
  {
    var sector := inp.sectorOf[h.ticker];
    AbsentSectorIsZero(inp, hs, sector);
    assert (hs + [h])[..|hs|] == hs;
    assert forall x :: x in hs + [h] <==> x in hs || x == h;
    SectorsGrow(inp, hs, h);
  }

  lemma SectorsGrow(inp: Inputs, hs: seq<Holding>, h: Holding)
    requires h.ticker in inp.sectorOf
    ensures SectorsIn(inp, hs + [h]) == SectorsIn(inp, hs) + {inp.sectorOf[h.ticker]}
  {
    assert forall x :: x in hs + [h] <==> x in hs || x == h;
  }

  method SectorMvs(inp: Inputs, hs: seq<Holding>) returns (mvs: map<Sector, real>)
    requires Placed(inp, hs)
    ensures mvs == Mvs(inp, hs)
  {
    mvs := map[];
    for i := 0 to |hs|
      invariant mvs == Mvs(inp, hs[..i])
    {
      assert hs[i] in hs && hs[..i + 1] == hs[..i] + [hs[i]];
      MvsGrow(inp, hs[..i], hs[i]);
      var sector := inp.sectorOf[hs[i].ticker];
      mvs := mvs[sector := (if sector in mvs then mvs[sector] else 0.0) + hs[i].mv];
    }
    assert hs[..|hs|] == hs;
  }

  lemma {:induction false} AbsentSectorIsZero(inp: Inputs, hs: seq<Holding>, sector: Sector)
    ensures sector !in SectorsIn(inp, hs) ==> SectorSum(inp, hs, sector, MV) == 0.0
    decreases |hs|
  {
    if |hs| > 0 && sector !in SectorsIn(inp, hs) {
      assert hs[|hs| - 1] in hs;
      assert forall h | h in hs[..|hs| - 1] :: h in hs;
      AbsentSectorIsZero(inp, hs[..|hs| - 1], sector);
    }
  }

  /** What the aggregates of priced holdings `hs` have to be. */
  ghost predicate Describe(
    hs: seq<Holding>, population: seq<Holding>, sectors: set<Sector>, gains: map<Ticker, real>, r: Aggregates)
    requires SumBy(hs, MV) > 0.0 && SumBy(population, MV) > 0.0
  {
    && r.weights.Keys == r.sectorReturns.Keys == sectors
    && SumOf(r.weights) == 1.0
    && SumOf(Products(r.weights, r.sectorReturns)) == WeightedReturn(population, gains)
    && r.coverage == SumBy(population, MV) / SumBy(hs, MV)
  }

  lemma PopulationIsPositive(inp: Inputs, hs: seq<Holding>, gains: map<Ticker, real>)
    requires AllPositive(hs)
    ensures var population := Population(inp, gains, hs);
      && AllPositive(population) && Placed(inp, population)
      && (SumBy(population, MV) > 0.0 <==> population != []) && SumBy(population, MV) >= 0.0
      && (population != [] ==> SumBy(hs, MV) > 0.0)
      && forall s | s in SectorsIn(inp, population) :: SectorSum(inp, population, s, MV) > 0.0
  {
    var population := Population(inp, gains, hs);
    PositiveSum(population);
    PositiveSum(hs);
    assert population != [] ==> population[0] in population;
    forall s | s in SectorsIn(inp, population) ensures SectorSum(inp, population, s, MV) > 0.0 {
      PositiveSectorSum(inp, population, s);
    }
  }

  /** The returns as the source writes them: shares of the sector's value times returns. */
  method ReturnsBySector(inp: Inputs, population: seq<Holding>, gains: map<Ticker, real>, mvs: map<Sector, real>)
    returns (r: map<Sector, real>)
    requires mvs == Mvs(inp, population)
    requires forall s | s in SectorsIn(inp, population) :: SectorSum(inp, population, s, MV) > 0.0
    ensures r == SectorReturns(inp, population, gains)
  {
    r := map s | s in mvs :: SectorSum(inp, population, s, ShareGain(gains, mvs[s]));
    forall s | s in mvs ensures r[s] == SectorSum(inp, population, s, Gain(gains)) / mvs[s] {
      SectorReturn(inp, population, s, gains, mvs[s]);
    }
  }

  method PortfolioSectorAggregates(inp: Inputs, hs: seq<Holding>, gains: map<Ticker, real>) returns (r: Aggregates)
    requires AllPositive(hs)
    ensures Population(inp, gains, hs) == [] ==> r == Aggregates(map[], map[], 0.0)
    ensures Population(inp, gains, hs) != [] ==>
      && SumBy(hs, MV) > 0.0 && SumBy(Population(inp, gains, hs), MV) > 0.0
      && Describe(hs, Population(inp, gains, hs), SectorsIn(inp, Population(inp, gains, hs)), gains, r)
  {
    var total := SumBy(hs, MV);
    var population := Population(inp, gains, hs);
    PopulationIsPositive(inp, hs, gains);
    var mvs := SectorMvs(inp, population);
    var covered := SumValues(mvs);
    SectorsAddUp(inp, population, SectorsIn(inp, population), MV);
    if covered <= 0.0 {
      return Aggregates(map[], map[], 0.0);
    }
    WeightsSumToOne(inp, population);
    WeightedReturnsAddUp(inp, population, gains);
    var sectorReturns := ReturnsBySector(inp, population, gains, mvs);
    r := Aggregates(Quotients(mvs, covered), sectorReturns, if total > 0.0 then covered / total else 0.0);
  }

  // ---------- The attributed/unattributed loop ----------

  /** The left-out holdings, in list order, each with its reason. */
  function LeftOut(inp: Inputs, hs: seq<Holding>): seq<Unattributed> {
    if |hs| == 0 then []
    else
      var most, last := LeftOut(inp, hs[..|hs| - 1]), hs[|hs| - 1];
      match Outcome(inp, last.ticker)
      case Ok(_) => most
      case Err(why) => most + [Unattributed(last.ticker, last.mv, why)]
  }

  function Gains(inp: Inputs, hs: seq<Holding>): map<Ticker, real> {
    var tickers := set h | h in hs && Outcome(inp, h.ticker).Ok? :: h.ticker;
    map t | t in tickers && Outcome(inp, t).Ok? :: Outcome(inp, t).value
  }

  lemma GainsGrow(inp: Inputs, hs: seq<Holding>, h: Holding)
    ensures Gains(inp, hs + [h]) == match Outcome(inp, h.ticker)
                                    case Ok(gain) => Gains(inp, hs)[h.ticker := gain]
                                    case Err(_) => Gains(inp, hs)
  {
    assert forall x :: x in hs + [h] <==> x in hs || x == h;
    forall t ensures t in Gains(inp, hs + [h]) <==> t in Gains(inp, hs) || (t == h.ticker && Outcome(inp, t).Ok?) {
      if t == h.ticker { assert h in hs + [h] && h.ticker == t; }
    }
  }

  method Attribute(inp: Inputs, priced: seq<Holding>)
    returns (gains: map<Ticker, real>, unattributed: seq<Unattributed>)
    ensures gains == Gains(inp, priced) && unattributed == LeftOut(inp, priced)
  {
    gains, unattributed := map[], [];
    for i := 0 to |priced|
      invariant gains == Gains(inp, priced[..i]) && unattributed == LeftOut(inp, priced[..i])
    {
      var h := priced[i];
      assert priced[..i + 1] == priced[..i] + [h] && priced[..i + 1][..i] == priced[..i];
      GainsGrow(inp, priced[..i], h);
      if !Classified(inp, h.ticker) {
        unattributed := unattributed + [Unattributed(h.ticker, h.mv, NoSector)];
        continue;
      }
      var history := if h.ticker in inp.history then inp.history[h.ticker] else [];
      var outcome := WindowReturn(history, inp.w.anchor, inp.w.end);
      match outcome
      case Err(why) => unattributed := unattributed + [Unattributed(h.ticker, h.mv, why)];
      case Ok(gain) => gains := gains[h.ticker := gain];
    }
    assert priced[..|priced|] == priced;
  }

  lemma {:induction false} EveryHoldingIsPlaced(inp: Inputs, hs: seq<Holding>, gains: map<Ticker, real>)
    requires forall h | h in hs :: h.ticker in gains <==> Outcome(inp, h.ticker).Ok?
    ensures SumBy(Population(inp, gains, hs), MV) + UnattributedMv(LeftOut(inp, hs)) == SumBy(hs, MV)
    ensures |Population(inp, gains, hs)| + |LeftOut(inp, hs)| == |hs|
    decreases |hs|
  {
    if |hs| > 0 {
      assert hs[|hs| - 1] in hs;
      EveryHoldingIsPlaced(inp, hs[..|hs| - 1], gains);
    }
  }

  lemma PartOfWhole(part: real, rest: real, whole: real)
    requires part + rest == whole && whole != 0.0
    ensures part / whole == 1.0 - rest / whole
  {
    QuotientsAdd(part, rest, whole);
  }

  lemma {:induction false} LeftOutIsPositive(inp: Inputs, hs: seq<Holding>)
    requires AllPositive(hs)
    ensures UnattributedMv(LeftOut(inp, hs)) >= 0.0
    ensures UnattributedMv(LeftOut(inp, hs)) == 0.0 <==> LeftOut(inp, hs) == []
    decreases |hs|
  {
    if |hs| > 0 {
      assert hs[|hs| - 1] in hs;
      LeftOutIsPositive(inp, hs[..|hs| - 1]);
    }
  }

  lemma GainsMatchOutcomes(inp: Inputs, priced: seq<Holding>)
    ensures forall h | h in priced :: h.ticker in Gains(inp, priced) <==> Outcome(inp, h.ticker).Ok?
  {
  }

  /** Coverage, weights and returns describe one population: every holding is either in it or
      listed with a reason, and what is listed is exactly what coverage lacks. */
  lemma CoverageIsWhatIsNotListed(inp: Inputs, priced: seq<Holding>, coverage: real)
    requires AllPositive(priced) && priced != [] && SumBy(priced, MV) > 0.0
    requires coverage == SumBy(Population(inp, Gains(inp, priced), priced), MV) / SumBy(priced, MV)
    ensures coverage == 1.0 - UnattributedMv(LeftOut(inp, priced)) / SumBy(priced, MV)
    ensures |Population(inp, Gains(inp, priced), priced)| + |LeftOut(inp, priced)| == |priced|
  {
    GainsMatchOutcomes(inp, priced);
    EveryHoldingIsPlaced(inp, priced, Gains(inp, priced));
    PartOfWhole(SumBy(Population(inp, Gains(inp, priced), priced), MV), UnattributedMv(LeftOut(inp, priced)),
                SumBy(priced, MV));
  }

  lemma ZeroShare(x: real, c: real)
    requires c > 0.0
    ensures x / c == 0.0 <==> x == 0.0
  {
  }

  /** Coverage is full exactly when nothing is listed. */
  lemma FullCoverage(inp: Inputs, priced: seq<Holding>, coverage: real)
    requires AllPositive(priced) && priced != [] && SumBy(priced, MV) > 0.0
    requires coverage == SumBy(Population(inp, Gains(inp, priced), priced), MV) / SumBy(priced, MV)
    ensures coverage == 1.0 <==> LeftOut(inp, priced) == []
  {
    CoverageIsWhatIsNotListed(inp, priced, coverage);
    LeftOutIsPositive(inp, priced);
    ZeroShare(UnattributedMv(LeftOut(inp, priced)), SumBy(priced, MV));
  }
}
