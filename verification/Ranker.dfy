/** The deterministic insight ranker, api/insights/ranker.py. */
module Ranker {
  import opened Wrappers
  import opened Text
  import Sorting

  datatype Observation = Observation(
    facetKey: string,
    text: string,
    asOf: string,
    materiality: real,
    deviation: real,
    urgency: real,
    ruleBreach: bool)

  datatype RankWeights = RankWeights(
    materiality: real,
    deviation: real,
    urgency: real,
    ruleBreach: real,
    noveltyPenalty: real)

  const DEFAULT_WEIGHTS := RankWeights(1.0, 0.8, 0.6, 1.2, 0.5)
  const FLOOR_TEXT := "Nothing unusual today — your portfolio moved with its factors."

  datatype Selection = Selection(observations: seq<Observation>, isFloor: bool)

  datatype Error = NegativeLimit | FloorWithoutProvenance | EmptyText

  predicate Space(c: char) {
    c == ' ' || '\t' <= c <= '\r' || '\U{1C}' <= c <= '\U{1F}'
  }

  predicate Blank(s: string) {
    forall i | 0 <= i < |s| :: Space(s[i])
  }

  /** Text is blank when it is all tabs, line and page feeds, returns, separators and spaces. */
  lemma BlankExactly(s: string)
    ensures Blank(s) <==> forall c | c in s :: c as int in {9, 10, 11, 12, 13, 28, 29, 30, 31, 32}
  {
    if Blank(s) {
      forall c | c in s ensures c as int in {9, 10, 11, 12, 13, 28, 29, 30, 31, 32} {
        var i :| 0 <= i < |s| && s[i] == c;
      }
    } else {
      var i :| 0 <= i < |s| && !Space(s[i]);
      assert s[i] in s;
    }
  }

  /** What constructing an observation checks. */
  predicate Valid(o: Observation) {
    && 0.0 <= o.materiality <= 1.0 && 0.0 <= o.deviation <= 1.0 && 0.0 <= o.urgency <= 1.0
    && !Blank(o.text) && !Blank(o.asOf)
  }

  function Score(o: Observation, w: RankWeights, shown: set<string>): real {
    w.materiality * o.materiality + w.deviation * o.deviation + w.urgency * o.urgency
      + (if o.ruleBreach then w.ruleBreach else 0.0)
      - (if o.facetKey in shown then w.noveltyPenalty else 0.0)
  }

  /** The sort key: score descending, then facet key. */
  function Order(w: RankWeights, shown: set<string>): (Observation, Observation) -> bool {
    (a: Observation, b: Observation) =>
      Score(a, w, shown) > Score(b, w, shown)
      || (Score(a, w, shown) == Score(b, w, shown) && StringLe(a.facetKey, b.facetKey))
  }

  function Rank(obs: seq<Observation>, w: RankWeights, shown: set<string>, limit: int)
    : (r: Result<seq<Observation>, Error>)
  {
    if limit < 0 then Err(NegativeLimit) else Ok(Sorting.Take(Sorting.Sort(obs, Order(w, shown)), limit))
  }

  function Clears(w: RankWeights, shown: set<string>, threshold: real): Observation -> bool {
    (o: Observation) => Score(o, w, shown) >= threshold
  }

  function Select(
    obs: seq<Observation>, w: RankWeights, shown: set<string>, limit: int, threshold: real, asOf: string)
    : (r: Result<Selection, Error>)
  {
    match Rank(obs, w, shown, limit)
    case Err(e) => Err(e)
    case Ok(ranked) =>
      var kept := Sorting.Filter(ranked, Clears(w, shown, threshold));
      if |kept| > 0 then Ok(Selection(kept, false))
      else
        var floorAsOf := if asOf != "" then asOf else if |ranked| > 0 then ranked[0].asOf else "";
        if Blank(floorAsOf) then Err(FloorWithoutProvenance)
        else Ok(Selection([Observation("floor", FLOOR_TEXT, floorAsOf, 0.0, 0.0, 0.0, false)], true))
  }

  function WithText(o: Observation, text: string): (r: Result<Observation, Error>) {
    if Blank(text) then Err(EmptyText) else Ok(o.(text := text))
  }

  // ---------- What the score is made of ----------

  /** Each term moves the score by its own weight and nothing else does: a rule breach adds its weight,
      having been shown takes the novelty penalty off, and an observation with nothing to it scores 0. */
  lemma ScoreTerms(o: Observation, w: RankWeights, shown: set<string>, x: real)
    ensures Score(o.(materiality := x), w, shown) - Score(o, w, shown) == w.materiality * (x - o.materiality)
    ensures Score(o.(deviation := x), w, shown) - Score(o, w, shown) == w.deviation * (x - o.deviation)
    ensures Score(o.(urgency := x), w, shown) - Score(o, w, shown) == w.urgency * (x - o.urgency)
    ensures Score(o.(ruleBreach := true), w, shown) == Score(o.(ruleBreach := false), w, shown) + w.ruleBreach
    ensures Score(o, w, shown + {o.facetKey}) == Score(o, w, shown - {o.facetKey}) - w.noveltyPenalty
    ensures o.materiality == o.deviation == o.urgency == 0.0 && !o.ruleBreach && o.facetKey !in shown ==>
      Score(o, w, shown) == 0.0
  {
  }

  /** By default a full score is 3.6 with a breach and 2.4 without, and half a point less once shown. */
  lemma DefaultScores(o: Observation)
    requires o.materiality == o.deviation == o.urgency == 1.0 && o.ruleBreach
    ensures Score(o, DEFAULT_WEIGHTS, {}) == 3.6 && Score(o.(ruleBreach := false), DEFAULT_WEIGHTS, {}) == 2.4
    ensures Score(o, DEFAULT_WEIGHTS, {o.facetKey}) == 3.1
    ensures Score(o.(deviation := 0.0, urgency := 0.0, ruleBreach := false), DEFAULT_WEIGHTS, {}) == 1.0
    ensures Score(o.(materiality := 0.0, urgency := 0.0, ruleBreach := false), DEFAULT_WEIGHTS, {}) == 0.8
  {
  }

  function Least(o: Observation): Observation {
    o.(materiality := 0.0, deviation := 0.0, urgency := 0.0, ruleBreach := false)
  }

  function Most(o: Observation): Observation {
    o.(materiality := 1.0, deviation := 1.0, urgency := 1.0, ruleBreach := true)
  }

  /** Scores of valid observations lie between the penalty below 0 and the sum of the weights. */
  lemma ScoreRange(o: Observation, w: RankWeights, shown: set<string>)
    requires Valid(o)
    requires w.materiality >= 0.0 && w.deviation >= 0.0 && w.urgency >= 0.0 && w.ruleBreach >= 0.0
    requires w.noveltyPenalty >= 0.0
    ensures 0.0 - w.noveltyPenalty <= Score(o, w, shown)
    ensures Score(o, w, shown) <= w.materiality + w.deviation + w.urgency + w.ruleBreach
  {
    var m := PartOf(o.materiality, w.materiality);
    var d := PartOf(o.deviation, w.deviation);
    var u := PartOf(o.urgency, w.urgency);
    assert Score(o, w, shown) == m + d + u + (if o.ruleBreach then w.ruleBreach else 0.0)
                                 - (if o.facetKey in shown then w.noveltyPenalty else 0.0);
  }

  lemma PartOf(x: real, weight: real) returns (part: real)
    requires 0.0 <= x <= 1.0 && weight >= 0.0
    ensures part == weight * x && 0.0 <= part <= weight
  {
    part := weight * x;
  }

  /** Valid observations reach both ends of that range. */
  lemma ScoreRangeIsReached(o: Observation, w: RankWeights, shown: set<string>)
    requires Valid(o)
    ensures Valid(Least(o)) && Score(Least(o), w, shown + {o.facetKey}) == 0.0 - w.noveltyPenalty
    ensures Valid(Most(o))
         && Score(Most(o), w, shown - {o.facetKey}) == w.materiality + w.deviation + w.urgency + w.ruleBreach
  {
  }

  // ---------- The order is total, and strict on facet keys ----------

  lemma OrderIsTotal(w: RankWeights, shown: set<string>)
    ensures Sorting.TotalPreorder(Order(w, shown))
  {
    var le := Order(w, shown);
    forall x, y ensures le(x, y) || le(y, x) {
      StringLeTotal(x.facetKey, y.facetKey);
    }
    forall x, y, z | le(x, y) && le(y, z) ensures le(x, z) {
      if Score(x, w, shown) == Score(z, w, shown) {
        StringLeTransitive(x.facetKey, y.facetKey, z.facetKey);
      }
    }
  }

  // ---------- The slate is the best of what clears ----------

  lemma ClearingKeepsTop(w: RankWeights, shown: set<string>, threshold: real)
    ensures Sorting.KeepsTop(Order(w, shown), Clears(w, shown, threshold))
  {
  }

  /** Truncate-then-threshold, as `select` does it, is threshold-then-truncate. */
  lemma ThresholdThenTruncate(
    obs: seq<Observation>, w: RankWeights, shown: set<string>, limit: nat, threshold: real)
    ensures Sorting.Filter(Rank(obs, w, shown, limit).value, Clears(w, shown, threshold))
         == Rank(Sorting.Filter(obs, Clears(w, shown, threshold)), w, shown, limit).value
  {
    OrderIsTotal(w, shown);
    ClearingKeepsTop(w, shown, threshold);
    Sorting.TopKept(obs, limit, Order(w, shown), Clears(w, shown, threshold));
  }

  /** A slate that is not the floor is exactly the best `limit` of the candidates that clear
      the threshold: it is drawn from them, fills as many slots as it can, best first, and
      nothing it leaves out outranks anything it shows. */
  lemma SlateIsTheBest(
    obs: seq<Observation>, w: RankWeights, shown: set<string>, limit: int, threshold: real, asOf: string)
    requires var r := Select(obs, w, shown, limit, threshold, asOf); r.Ok? && !r.value.isFloor
    ensures var slate := Select(obs, w, shown, limit, threshold, asOf).value.observations;
      var clearing := Sorting.Filter(obs, Clears(w, shown, threshold));
      && (forall o :: o in clearing <==> o in obs && Score(o, w, shown) >= threshold)
      && multiset(slate) <= multiset(clearing) <= multiset(obs)
      && |slate| == (if limit < |clearing| then limit else |clearing|)
      && Sorting.Sorted(slate, Order(w, shown))
      && forall o, c | o in slate && c in clearing && c !in slate :: Order(w, shown)(o, c)
  {
    var keep := Clears(w, shown, threshold);
    ThresholdThenTruncate(obs, w, shown, limit, threshold);
    OrderIsTotal(w, shown);
    Sorting.TakeIsBest(Sorting.Filter(obs, keep), limit, Order(w, shown));
    forall o ensures o in Sorting.Filter(obs, keep) <==> o in obs && Score(o, w, shown) >= threshold {
      Sorting.FilterMembers(obs, keep, o);
    }
    Sorting.FilterMembers(obs, keep, Observation("", "", "", 0.0, 0.0, 0.0, false));
  }

  // ---------- The floor ----------

  /** No slot, or no candidate worth one. */
  ghost predicate Quiet(obs: seq<Observation>, w: RankWeights, shown: set<string>, limit: int, threshold: real) {
    limit == 0 || forall o | o in obs :: !Clears(w, shown, threshold)(o)
  }

  /** The floor appears exactly when the limit is zero or nothing clears, provided it can be
      dated: from `asOf`, or else from the best candidate, which needs a slot to be seen. */
  lemma FloorExactlyWhenQuiet(
    obs: seq<Observation>, w: RankWeights, shown: set<string>, limit: nat, threshold: real, asOf: string)
    requires forall o | o in obs :: Valid(o)
    ensures var r := Select(obs, w, shown, limit, threshold, asOf);
      && (Quiet(obs, w, shown, limit, threshold) <==> r.Err? || r.value.isFloor)
      && (r.Err? <==> Quiet(obs, w, shown, limit, threshold)
                      && (if asOf == "" then limit == 0 || obs == [] else Blank(asOf)))
      && (r.Ok? && r.value.isFloor ==> |r.value.observations| == 1 && Valid(r.value.observations[0])
                                       && r.value.observations[0].text == FLOOR_TEXT)
  {
    SomethingKeptUnlessQuiet(obs, w, shown, limit, threshold);
    Sorting.SortPermutes(obs, Order(w, shown));
    if limit > 0 && |obs| > 0 {
      Sorting.InMultiset(Sorting.Sort(obs, Order(w, shown)), obs, 0);
    }
    assert FLOOR_TEXT[|FLOOR_TEXT| - 1] == '.';
  }

  /** The floor scores nothing and carries the date asked for, or else that of a best candidate. */
  lemma FloorIsDatedByTheBest(
    obs: seq<Observation>, w: RankWeights, shown: set<string>, limit: nat, threshold: real, asOf: string)
    requires Select(obs, w, shown, limit, threshold, asOf).Ok?
    requires Select(obs, w, shown, limit, threshold, asOf).value.isFloor
    ensures var floor := Select(obs, w, shown, limit, threshold, asOf).value.observations[0];
      && floor.materiality == floor.deviation == floor.urgency == 0.0 && !floor.ruleBreach
      && floor.facetKey == "floor"
      && (asOf != "" ==> floor.asOf == asOf)
      && (asOf == "" ==>
           exists o | o in obs ::
             floor.asOf == o.asOf && forall other | other in obs :: Score(o, w, shown) >= Score(other, w, shown))
  {
    if asOf == "" {
      var ordered := Sorting.Sort(obs, Order(w, shown));
      Sorting.SortPermutes(obs, Order(w, shown));
      OrderIsTotal(w, shown);
      Sorting.SortSorts(obs, Order(w, shown));
      Sorting.InMultiset(ordered, obs, 0);
      forall other | other in obs ensures Score(ordered[0], w, shown) >= Score(other, w, shown) {
        assert other in multiset(ordered);
        var i :| 0 <= i < |ordered| && ordered[i] == other;
        assert i == 0 || Order(w, shown)(ordered[0], ordered[i]);
      }
    }
  }

  lemma SomethingKeptUnlessQuiet(
    obs: seq<Observation>, w: RankWeights, shown: set<string>, limit: nat, threshold: real)
    ensures Sorting.Filter(Rank(obs, w, shown, limit).value, Clears(w, shown, threshold)) == []
       <==> Quiet(obs, w, shown, limit, threshold)
  {
    var keep := Clears(w, shown, threshold);
    var clearing := Sorting.Filter(obs, keep);
    ThresholdThenTruncate(obs, w, shown, limit, threshold);
    Sorting.SortPermutes(clearing, Order(w, shown));
    forall o ensures o in clearing <==> o in obs && keep(o) {
      Sorting.FilterMembers(obs, keep, o);
    }
    if |clearing| > 0 {
      assert clearing[0] in clearing;
    }
  }

  // ---------- Phrasing cannot change priority ----------

  function Phrase(phrasing: Observation -> string): Observation -> Observation {
    (o: Observation) => o.(text := phrasing(o))
  }

  lemma PhrasingKeepsRank(
    a: Observation, b: Observation, phrasing: Observation -> string, w: RankWeights, shown: set<string>)
    ensures Order(w, shown)(Phrase(phrasing)(a), Phrase(phrasing)(b)) == Order(w, shown)(a, b)
  {
  }

  lemma MapTake(f: Observation -> Observation, s: seq<Observation>, n: nat)
    ensures Sorting.Take(Sorting.Map(f, s), n) == Sorting.Map(f, Sorting.Take(s, n))
  {
  }

  /** Re-ranking candidates that carry generated text gives the same slate, rephrased. */
  lemma RephrasingKeepsTheOrder(
    obs: seq<Observation>, phrasing: Observation -> string, w: RankWeights, shown: set<string>, limit: nat)
    ensures Rank(Sorting.Map(Phrase(phrasing), obs), w, shown, limit)
         == Ok(Sorting.Map(Phrase(phrasing), Rank(obs, w, shown, limit).value))
  {
    var f, le := Phrase(phrasing), Order(w, shown);
    forall a, b ensures le(f(a), f(b)) == le(a, b) {
      PhrasingKeepsRank(a, b, phrasing, w, shown);
    }
    Sorting.SortMap(f, obs, le, le);
    MapTake(f, Sorting.Sort(obs, le), limit);
  }

  /** `with_text` is that rephrasing, and refuses blank text. */
  lemma WithTextIsPhrase(o: Observation, phrasing: Observation -> string)
    requires Valid(o)
    ensures var r := WithText(o, phrasing(o));
      && (r.Ok? <==> !Blank(phrasing(o)))
      && (r.Ok? ==> r.value == Phrase(phrasing)(o) && Valid(r.value))
  {
  }
}
