/** The one dated interval every attributed return is measured over: `_close_on_or_before`,
    `_common_window` and `_window_return` in api/services/attribution.py. */
module AttributionWindow {
  import opened Arithmetic
  import opened Wrappers
  import Sorting

  datatype ClosePoint = ClosePoint(day: int, close: real)

  datatype Reason = NoSector | NoHistory | ShortHistory | Stale | InvalidPrice

  datatype Window = Window(anchor: int, end: int)

  /** Oldest bar first, one bar a day, as the price cache returns a series. */
  predicate Ordered(series: seq<ClosePoint>) {
    forall i, j | 0 <= i < j < |series| :: series[i].day < series[j].day
  }

  predicate Priced(series: seq<ClosePoint>) {
    forall p | p in series :: p.close > 0.0
  }

  function LastDay(series: seq<ClosePoint>): int
    requires series != []
  {
    series[|series| - 1].day
  }

  // ---------- The close on or before a day ----------

  function CloseOn(series: seq<ClosePoint>, day: int): Option<ClosePoint> {
    if |series| == 0 || series[0].day > day then None
    else
      var later := CloseOn(series[1..], day);
      if later.Some? then later else Some(series[0])
  }

  method CloseOnOrBefore(series: seq<ClosePoint>, day: int) returns (found: Option<ClosePoint>)
    ensures found == CloseOn(series, day)
  {
    found := None;
    for i := 0 to |series|
      invariant CloseOn(series, day) == (var later := CloseOn(series[i..], day); if later.Some? then later else found)
    {
      if series[i].day > day {
        break;
      }
      assert series[i..][1..] == series[i + 1..];
      found := Some(series[i]);
    }
  }

  /** On an ordered series it is the latest bar that is not after `day`. */
  lemma {:induction false} CloseOnIsLatest(series: seq<ClosePoint>, day: int)
    requires Ordered(series)
    ensures CloseOn(series, day).None? <==> forall p | p in series :: p.day > day
    ensures CloseOn(series, day).Some? ==>
      var found := CloseOn(series, day).value;
      found in series && found.day <= day && forall p | p in series && p.day <= day :: p.day <= found.day
    decreases |series|
  {
    if |series| > 0 {
      var first, rest := series[0], series[1..];
      assert series == [first] + rest;
      CloseOnIsLatest(rest, day);
      assert forall p :: p in series <==> p == first || p in rest;
    }
  }

  // ---------- One return over exactly the window ----------

  function WindowReturn(series: seq<ClosePoint>, anchor: int, end: int): Result<real, Reason> {
    if series == [] then Err(NoHistory)
    else if series[0].day > anchor then Err(ShortHistory)
    else if LastDay(series) < end then Err(Stale)
    else
      var first, last := CloseOn(series, anchor), CloseOn(series, end);
      if first.None? || last.None? || first.value.close <= 0.0 || last.value.close <= 0.0 then Err(InvalidPrice)
      else Ok(last.value.close / first.value.close - 1.0)
  }

  /** The series has a bar on or before the anchor and one on or after the end. */
  predicate Reaches(series: seq<ClosePoint>, anchor: int, end: int) {
    |series| > 0 && series[0].day <= anchor && end <= LastDay(series)
  }

  lemma ReachingIsReturnable(series: seq<ClosePoint>, anchor: int, end: int)
    requires Ordered(series) && Priced(series) && anchor <= end
    ensures WindowReturn(series, anchor, end).Ok? <==> Reaches(series, anchor, end)
  {
    CloseOnIsLatest(series, anchor);
    CloseOnIsLatest(series, end);
    if Reaches(series, anchor, end) {
      assert series[0] in series;
    }
  }

  /** The bar is the latest one not after the day. */
  ghost predicate LatestOn(series: seq<ClosePoint>, day: int, bar: ClosePoint) {
    bar in series && bar.day <= day && forall p | p in series && p.day <= day :: p.day <= bar.day
  }

  lemma LatestIsOne(series: seq<ClosePoint>, day: int, bar: ClosePoint)
    requires Ordered(series) && LatestOn(series, day, bar)
    ensures CloseOn(series, day) == Some(bar)
  {
    CloseOnIsLatest(series, day);
    var found := CloseOn(series, day).value;
    var i :| 0 <= i < |series| && series[i] == bar;
    var j :| 0 <= j < |series| && series[j] == found;
  }

  lemma GrowthOver(first: real, last: real)
    requires first > 0.0
    ensures Product(1.0 + (last / first - 1.0), first) == last
  {
    QuotientTimes(last, first);
    assert 1.0 + (last / first - 1.0) == Quotient(last, first);
  }

  /** Each failure by its cause, in order; otherwise the return that grows the latest close on the
      anchor to the latest close on the end. */
  lemma WindowReturnExactly(series: seq<ClosePoint>, anchor: int, end: int, from: ClosePoint, to: ClosePoint)
    requires Ordered(series)
    ensures var r := WindowReturn(series, anchor, end);
      && (r == Err(NoHistory) <==> series == [])
      && (r == Err(ShortHistory) <==> series != [] && series[0].day > anchor)
      && (r == Err(Stale) <==> series != [] && series[0].day <= anchor && series[|series| - 1].day < end)
      && (Reaches(series, anchor, end) && LatestOn(series, anchor, from) && LatestOn(series, end, to) ==>
            if from.close > 0.0 && to.close > 0.0
            then r.Ok? && Product(1.0 + r.value, from.close) == to.close else r == Err(InvalidPrice))
  {
    if Reaches(series, anchor, end) && LatestOn(series, anchor, from) && LatestOn(series, end, to) {
      LatestIsOne(series, anchor, from);
      LatestIsOne(series, end, to);
      if from.close > 0.0 {
        GrowthOver(from.close, to.close);
      }
    }
  }

  lemma Chain(a: real, b: real, c: real)
    requires a > 0.0 && b > 0.0
    ensures (1.0 + (b / a - 1.0)) * (1.0 + (c / b - 1.0)) - 1.0 == c / a - 1.0
  {
    assert (b / a) * (c / b) == c / a;
  }

  /** Window returns over adjoining intervals compound to the return over the whole. */
  lemma AdjoiningReturnsCompound(series: seq<ClosePoint>, anchor: int, middle: int, end: int)
    requires WindowReturn(series, anchor, middle).Ok? && WindowReturn(series, middle, end).Ok?
    ensures WindowReturn(series, anchor, end).Ok?
    ensures 1.0 + WindowReturn(series, anchor, end).value
         == (1.0 + WindowReturn(series, anchor, middle).value) * (1.0 + WindowReturn(series, middle, end).value)
  {
    Chain(CloseOn(series, anchor).value.close, CloseOn(series, middle).value.close, CloseOn(series, end).value.close);
  }

  // ---------- The window every reference series spans ----------

  function FirstFrom(series: seq<ClosePoint>, start: int): Option<int> {
    if |series| == 0 then None
    else if series[0].day >= start then Some(series[0].day)
    else FirstFrom(series[1..], start)
  }

  /** The session dates the window is built from: each series' first on or after `start`. */
  ghost predicate AreFirsts(firsts: seq<int>, reference: seq<seq<ClosePoint>>, start: int) {
    |firsts| == |reference| && forall i | 0 <= i < |reference| :: FirstFrom(reference[i], start) == Some(firsts[i])
  }

  ghost predicate Latest(day: int, days: seq<int>) {
    day in days && forall d | d in days :: d <= day
  }

  ghost predicate EarliestLast(day: int, reference: seq<seq<ClosePoint>>)
    requires forall s | s in reference :: s != []
  {
    && (exists s :: s in reference && LastDay(s) == day)
    && forall s | s in reference :: day <= LastDay(s)
  }

  method Max(days: seq<int>) returns (day: int)
    requires days != []
    ensures Latest(day, days)
  {
    day := days[0];
    for i := 1 to |days|
      invariant day in days && forall k | 0 <= k < i :: days[k] <= day
    {
      if days[i] > day {
        day := days[i];
      }
    }
  }

  method MinLast(reference: seq<seq<ClosePoint>>) returns (day: int)
    requires reference != [] && forall s | s in reference :: s != []
    ensures EarliestLast(day, reference)
  {
    assert reference[0] in reference;
    day := LastDay(reference[0]);
    for i := 1 to |reference|
      invariant exists s :: s in reference && LastDay(s) == day
      invariant forall k | 0 <= k < i :: reference[k] in reference && day <= LastDay(reference[k])
    {
      assert reference[i] in reference;
      var last := LastDay(reference[i]);
      if last < day {
        day := last;
      }
    }
  }

  method FirstOnOrAfter(series: seq<ClosePoint>, start: int) returns (day: Option<int>)
    ensures day == FirstFrom(series, start)
  {
    for i := 0 to |series|
      invariant FirstFrom(series, start) == FirstFrom(series[i..], start)
    {
      if series[i].day >= start {
        return Some(series[i].day);
      }
      assert series[i..][1..] == series[i + 1..];
    }
    day := None;
  }

  ghost predicate Bounds(reference: seq<seq<ClosePoint>>, start: int, firsts: seq<int>, anchor: int, end: int) {
    && AreFirsts(firsts, reference, start) && Latest(anchor, firsts)
    && (forall s | s in reference :: s != []) && EarliestLast(end, reference)
  }

  /** What `CommonWindow` returns, in terms of the series' first and last sessions. */
  ghost predicate IsCommonWindow(reference: seq<seq<ClosePoint>>, start: int, w: Option<Window>) {
    if exists s :: s in reference && FirstFrom(s, start).None? then w == None
    else if reference == [] then w == None
    else exists firsts, anchor, end ::
      Bounds(reference, start, firsts, anchor, end) && w == if end > anchor then Some(Window(anchor, end)) else None
  }

  method CommonWindow(reference: seq<seq<ClosePoint>>, start: int) returns (w: Option<Window>)
    ensures IsCommonWindow(reference, start, w)
  {
    var firsts := [];
    for i := 0 to |reference|
      invariant AreFirsts(firsts, reference[..i], start)
    {
      var first := FirstOnOrAfter(reference[i], start);
      if first.None? {
        assert reference[i] in reference;
        return None;
      }
      firsts := firsts + [first.value];
    }
    assert reference[..|reference|] == reference;
    assert forall s | s in reference :: FirstFrom(s, start).Some? && s != [];
    if firsts == [] {
      return None;
    }
    var anchor := Max(firsts);
    var end := MinLast(reference);
    assert Bounds(reference, start, firsts, anchor, end);
    w := if end > anchor then Some(Window(anchor, end)) else None;
  }

  // ---------- Why it is the widest ----------

  /** A series read from the requested start on. */
  predicate ReadFrom(series: seq<ClosePoint>, start: int) {
    forall p | p in series :: p.day >= start
  }

  ghost predicate AllReach(reference: seq<seq<ClosePoint>>, anchor: int, end: int) {
    forall s | s in reference :: Reaches(s, anchor, end)
  }

  ghost predicate AllReturn(reference: seq<seq<ClosePoint>>, anchor: int, end: int) {
    forall s | s in reference :: WindowReturn(s, anchor, end).Ok?
  }

  lemma SpansBoth(reference: seq<seq<ClosePoint>>, start: int, firsts: seq<int>, anchor: int, end: int, a: int, e: int)
    requires forall s | s in reference :: ReadFrom(s, start)
    requires Bounds(reference, start, firsts, anchor, end)
    ensures AllReach(reference, a, e) <==> anchor <= a && e <= end
  {
    forall i | 0 <= i < |reference| ensures firsts[i] == reference[i][0].day && firsts[i] <= anchor {
      assert reference[i] in reference && reference[i][0] in reference[i] && firsts[i] in firsts;
    }
    if AllReach(reference, a, e) {
      var i :| 0 <= i < |firsts| && firsts[i] == anchor;
      assert Reaches(reference[i], a, e);
      var s :| s in reference && LastDay(s) == end;
      assert Reaches(s, a, e);
    }
  }

  /** The common window is the widest interval every reference series spans: for ordered,
      positively priced series read from `start`, every leg has a return over `[a, e]` exactly
      when `[a, e]` lies inside it. */
  lemma CommonWindowIsWidest(reference: seq<seq<ClosePoint>>, start: int, w: Window, a: int, e: int)
    requires forall s | s in reference :: Ordered(s) && Priced(s) && ReadFrom(s, start)
    requires IsCommonWindow(reference, start, Some(w)) && a <= e
    ensures AllReturn(reference, a, e) <==> w.anchor <= a && e <= w.end
  {
    var firsts, anchor, end :| Bounds(reference, start, firsts, anchor, end)
      && Some(w) == if end > anchor then Some(Window(anchor, end)) else None;
    SpansBoth(reference, start, firsts, anchor, end, a, e);
    forall s | s in reference ensures WindowReturn(s, a, e).Ok? <==> Reaches(s, a, e) {
      ReachingIsReturnable(s, a, e);
    }
  }

  lemma ReadIsFound(series: seq<ClosePoint>, start: int)
    requires ReadFrom(series, start)
    ensures FirstFrom(series, start).None? <==> series == []
  {
    if series != [] {
      assert series[0] in series;
    }
  }

  /** There is no window exactly when no interval of positive length gives every leg a return
      (or there is no leg at all). */
  lemma NoWindowMeansNoInterval(reference: seq<seq<ClosePoint>>, start: int, w: Option<Window>)
    requires forall s | s in reference :: Ordered(s) && Priced(s) && ReadFrom(s, start)
    requires IsCommonWindow(reference, start, w) && reference != []
    ensures w.None? <==> forall a, e | a < e :: !AllReturn(reference, a, e)
  {
    if exists s :: s in reference && FirstFrom(s, start).None? {
      var s :| s in reference && FirstFrom(s, start).None?;
      ReadIsFound(s, start);
      assert WindowReturn(s, 0, 1) == Err(NoHistory);
    } else {
      var firsts, anchor, end :| Bounds(reference, start, firsts, anchor, end)
        && w == if end > anchor then Some(Window(anchor, end)) else None;
      forall a, e | a <= e ensures AllReturn(reference, a, e) <==> anchor <= a && e <= end {
        SpansBoth(reference, start, firsts, anchor, end, a, e);
        forall s | s in reference ensures WindowReturn(s, a, e).Ok? <==> Reaches(s, a, e) {
          ReachingIsReturnable(s, a, e);
        }
      }
      if end > anchor {
        assert AllReturn(reference, anchor, end);
      }
    }
  }

  /** Starting any earlier leaves a leg with short history; ending any later leaves one stale. */
  lemma WiderWindowsFail(reference: seq<seq<ClosePoint>>, start: int, w: Window, day: int)
    requires forall s | s in reference :: ReadFrom(s, start)
    requires IsCommonWindow(reference, start, Some(w))
    ensures day < w.anchor ==> exists s :: s in reference && forall e :: WindowReturn(s, day, e) == Err(ShortHistory)
    ensures day > w.end ==> exists s :: s in reference && forall a | a >= w.anchor ::
      WindowReturn(s, a, day) == Err(Stale)
  {
    var firsts, anchor, end :| Bounds(reference, start, firsts, anchor, end)
      && Some(w) == if end > anchor then Some(Window(anchor, end)) else None;
    var i :| 0 <= i < |firsts| && firsts[i] == anchor;
    assert reference[i] in reference && reference[i][0] in reference[i];
    forall k | 0 <= k < |reference| ensures reference[k][0].day <= anchor {
      assert reference[k] in reference && reference[k][0] in reference[k] && firsts[k] in firsts;
    }
    assert day < w.anchor ==> forall e :: WindowReturn(reference[i], day, e) == Err(ShortHistory);
    var s :| s in reference && LastDay(s) == end;
    assert day > w.end ==> forall a | a >= w.anchor :: WindowReturn(s, a, day) == Err(Stale);
  }

  // ---------- Reading no earlier than the start ----------

  function From(start: int): ClosePoint -> bool {
    (p: ClosePoint) => p.day >= start
  }

  /** The bars of a series that a read bounded at `start` returns. */
  function Read(series: seq<ClosePoint>, start: int): seq<ClosePoint> {
    Sorting.Filter(series, From(start))
  }

  lemma {:induction false} ReadIsTail(series: seq<ClosePoint>, start: int) returns (k: nat)
    requires Ordered(series)
    ensures k <= |series| && Read(series, start) == series[k..]
    ensures forall i | 0 <= i < |series| :: series[i].day >= start <==> k <= i
    decreases |series|
  {
    if |series| == 0 {
      k := 0;
    } else if series[0].day >= start {
      k := 0;
      Sorting.FilterAll(series, From(start));
    } else {
      k := ReadIsTail(series[1..], start);
      k := k + 1;
    }
  }

  lemma {:induction false} TailHasTheClose(series: seq<ClosePoint>, k: nat, day: int)
    requires Ordered(series) && k < |series| && series[k].day <= day
    ensures CloseOn(series[k..], day) == CloseOn(series, day)
    decreases k
  {
    if k > 0 {
      TailHasTheClose(series[1..], k - 1, day);
      assert series[1..][k - 1..] == series[k..];
      assert series[0].day < series[k].day;
    }
  }

  lemma {:induction false} TailHasTheFirst(series: seq<ClosePoint>, k: nat, start: int)
    requires k <= |series| && forall i | 0 <= i < |series| :: series[i].day >= start <==> k <= i
    ensures FirstFrom(series[k..], start) == FirstFrom(series, start)
    ensures FirstFrom(series, start).Some? <==> k < |series|
    decreases k
  {
    if k > 0 {
      TailHasTheFirst(series[1..], k - 1, start);
      assert series[1..][k - 1..] == series[k..];
    }
  }

  /** Bars before the start never change a result: the bounded read has the same first session, and the
      same return over every interval that begins no earlier than it. */
  lemma EarlierBarsDoNotMatter(series: seq<ClosePoint>, start: int, anchor: int, end: int)
    requires Ordered(series) && anchor <= end
    ensures var bounded := Read(series, start);
      && Ordered(bounded) && ReadFrom(bounded, start)
      && FirstFrom(bounded, start) == FirstFrom(series, start)
      && (bounded != [] && bounded[0].day <= anchor ==>
            WindowReturn(bounded, anchor, end) == WindowReturn(series, anchor, end))
  {
    var k := ReadIsTail(series, start);
    TailHasTheFirst(series, k, start);
    var bounded := Read(series, start);
    assert forall p | p in bounded :: exists i :: k <= i < |series| && series[i] == p;
    if k < |series| && series[k].day <= anchor {
      TailHasTheClose(series, k, anchor);
      TailHasTheClose(series, k, end);
      assert series[0].day <= series[k].day;
    }
  }

  function Reads(reference: seq<seq<ClosePoint>>, start: int): seq<seq<ClosePoint>> {
    Sorting.Map((series: seq<ClosePoint>) => Read(series, start), reference)
  }

  lemma ReadKeepsEnds(series: seq<ClosePoint>, start: int)
    requires Ordered(series)
    ensures FirstFrom(Read(series, start), start) == FirstFrom(series, start)
    ensures FirstFrom(series, start).Some? ==>
      series != [] && Read(series, start) != [] && LastDay(Read(series, start)) == LastDay(series)
  {
    var k := ReadIsTail(series, start);
    TailHasTheFirst(series, k, start);
  }

  /** Nor do they change the window. */
  lemma EarlierBarsKeepTheWindow(reference: seq<seq<ClosePoint>>, start: int, w: Option<Window>)
    requires forall s | s in reference :: Ordered(s)
    ensures IsCommonWindow(Reads(reference, start), start, w) <==> IsCommonWindow(reference, start, w)
  {
    var bounded := Reads(reference, start);
    forall i | 0 <= i < |reference|
      ensures bounded[i] == Read(reference[i], start)
      ensures FirstFrom(bounded[i], start) == FirstFrom(reference[i], start)
      ensures FirstFrom(reference[i], start).Some? ==>
        reference[i] != [] && bounded[i] != [] && LastDay(bounded[i]) == LastDay(reference[i])
    {
      assert reference[i] in reference;
      ReadKeepsEnds(reference[i], start);
    }
    if s :| s in reference && FirstFrom(s, start).None? {
      var i :| 0 <= i < |reference| && reference[i] == s;
      assert bounded[i] in bounded;
    } else {
      forall i | 0 <= i < |reference| ensures FirstFrom(reference[i], start).Some? {
        assert reference[i] in reference;
      }
      SameBounds(reference, bounded, start);
    }
  }

  lemma SameBounds(reference: seq<seq<ClosePoint>>, bounded: seq<seq<ClosePoint>>, start: int)
    requires |bounded| == |reference|
    requires forall i | 0 <= i < |reference| ::
      && FirstFrom(reference[i], start).Some? && FirstFrom(bounded[i], start) == FirstFrom(reference[i], start)
      && reference[i] != [] && bounded[i] != [] && LastDay(bounded[i]) == LastDay(reference[i])
    ensures forall s | s in reference + bounded :: FirstFrom(s, start).Some?
    ensures forall firsts, anchor, end ::
      Bounds(bounded, start, firsts, anchor, end) <==> Bounds(reference, start, firsts, anchor, end)
  {
    forall s | s in reference + bounded ensures s != [] && FirstFrom(s, start).Some? {
      var i :| 0 <= i < |reference + bounded| && (reference + bounded)[i] == s;
      assert s == if i < |reference| then reference[i] else bounded[i - |reference|];
    }
    assert (forall s | s in reference :: s != []) && forall s | s in bounded :: s != [];
    forall end ensures EarliestLast(end, bounded) <==> EarliestLast(end, reference) {
      SameEarliest(reference, bounded, end);
      SameEarliest(bounded, reference, end);
    }
  }

  lemma SameEarliest(a: seq<seq<ClosePoint>>, b: seq<seq<ClosePoint>>, end: int)
    requires |a| == |b| && (forall s | s in a :: s != []) && forall s | s in b :: s != []
    requires forall i | 0 <= i < |a| :: a[i] in a && b[i] in b && LastDay(a[i]) == LastDay(b[i])
    ensures EarliestLast(end, a) ==> EarliestLast(end, b)
  {
    if EarliestLast(end, a) {
      var s :| s in a && LastDay(s) == end;
      var i :| 0 <= i < |a| && a[i] == s;
      assert b[i] in b && LastDay(b[i]) == end;
      forall t | t in b ensures end <= LastDay(t) {
        var j :| 0 <= j < |b| && b[j] == t;
        assert a[j] in a;
      }
    }
  }
}
