/** What one return row says, for any portfolios on its two dates: `build_personal_returns` in
    api/services/data_spine.py counts a portfolio only between two dates that both hold it, so one
    that opens or closes is neither a gain nor a loss. */
module PersonalReturnsRows {
  import opened Wrappers
  import opened Sums
  import opened PersonalReturns

  // ---------- Which portfolios a date waits for ----------

  /** The first and the last date that hold the portfolio. */
  ghost predicate SpansOf(book: Book, pid: Pid, first: int, last: int) {
    && first in book && pid in book[first] && last in book && pid in book[last]
    && forall d | d in book && pid in book[d] :: first <= d <= last
  }

  /** A date waits for a portfolio from its first snapshot on, and past its last one only while that one
      has a value: a portfolio that closed holds up no later date. */
  lemma AwaitedExactly(book: Book, pid: Pid, first: int, last: int, day: int)
    requires SpansOf(book, pid, first, last)
    ensures Active(book, pid, day) <==> first <= day && (day <= last || book[last][pid].nav > 0.0)
  {
  }

  lemma NeverSeenNeverAwaited(book: Book, pid: Pid, day: int)
    requires forall d | d in book :: pid !in book[d]
    ensures !Active(book, pid, day)
  {
  }

  // ---------- Openings and closings ----------

  /** A portfolio that was not there at the start of a row has no bearing on it. */
  lemma OpeningIsNoGain(s: Scan, day: int, cur: Snaps, newcomer: Pid)
    requires newcomer !in s.prev
    ensures NewRows(s, day, cur - {newcomer}) == NewRows(s, day, cur)
  {
    var common := cur.Keys * s.prev.Keys;
    var cur' := cur - {newcomer};
    assert cur'.Keys * s.prev.Keys == common;
    assert GrownMap(common, cur', s.skippedFlow) == GrownMap(common, cur, s.skippedFlow);
    assert forall p | p in common :: cur'[p] == cur[p];
  }

  /** Nor has one that is not there at its end. */
  lemma ClosingIsNoLoss(s: Scan, day: int, cur: Snaps, leaver: Pid)
    requires leaver !in cur
    ensures NewRows(s.(prev := s.prev - {leaver}), day, cur) == NewRows(s, day, cur)
  {
    var common := cur.Keys * s.prev.Keys;
    var s' := s.(prev := s.prev - {leaver});
    assert cur.Keys * s'.prev.Keys == common;
    assert NavMap(common, s'.prev) == NavMap(common, s.prev);
    assert forall p | p in common :: s'.prev[p] == s.prev[p];
  }

  // ---------- One row in money ----------

  function Both(a: Snaps, b: Snaps): set<Pid> {
    set p | p in a && p in b
  }

  /** What the portfolios on both dates were worth at the start. */
  ghost function StartTotal(a: Snaps, b: Snaps): real {
    SumOf(map p | p in Both(a, b) :: a[p].nav)
  }

  ghost function EndTotal(a: Snaps, b: Snaps): real {
    SumOf(map p | p in Both(a, b) :: b[p].nav)
  }

  /** The flows of those portfolios, each as `flow` gives it. */
  ghost function FlowTotal(a: Snaps, b: Snaps, flow: Pid -> real): real {
    SumOf(map p | p in Both(a, b) :: flow(p))
  }

  /** The row from `a` on `start` to `b` on `end`: growth less flows over the start total. */
  ghost predicate IsRowOf(row: Row, start: int, a: Snaps, end: int, b: Snaps, flow: Pid -> real) {
    && row.start == start && row.end == end
    && StartTotal(a, b) > 0.0
    && StartTotal(a, b) * row.ret == EndTotal(a, b) - StartTotal(a, b) - FlowTotal(a, b, flow)
    && (row.estimated <==> exists p :: p in a && p in b && (a[p].estimated || b[p].estimated))
  }

  function NetFlow(s: Scan, cur: Snaps): Pid -> real {
    p => (if p in cur then cur[p].flow else 0.0) + FlowOf(s.skippedFlow, p)
  }

  lemma GrownIsNet(s: Scan, cur: Snaps)
    ensures SumOf(GrownMap(cur.Keys * s.prev.Keys, cur, s.skippedFlow))
         == EndTotal(s.prev, cur) - FlowTotal(s.prev, cur, NetFlow(s, cur))
  {
    var common := Both(s.prev, cur);
    assert common == cur.Keys * s.prev.Keys;
    var flow := NetFlow(s, cur);
    SumPlus(GrownMap(common, cur, s.skippedFlow), map p | p in common :: flow(p), map p | p in common :: cur[p].nav);
  }

  lemma TimesReturn(base: real, grown: real)
    requires base > 0.0
    ensures base * (grown / base - 1.0) == grown - base
  {
  }

  /** A complete date adds a row exactly when there is a date before it and the portfolios on both are
      worth something at the start; that row is the growth of those portfolios less the flows on the
      date and on the dates skipped. */
  lemma RowExactly(s: Scan, day: int, cur: Snaps)
    ensures var rows := NewRows(s, day, cur);
      && (rows != [] <==> s.prevDay.Some? && StartTotal(s.prev, cur) > 0.0)
      && (rows != [] ==> |rows| == 1 && IsRowOf(rows[0], s.prevDay.value, s.prev, day, cur, NetFlow(s, cur)))
  {
    var common := cur.Keys * s.prev.Keys;
    assert common == Both(s.prev, cur);
    assert NavMap(common, s.prev) == map p | p in Both(s.prev, cur) :: s.prev[p].nav;
    var base := StartTotal(s.prev, cur);
    if common == {} {
      assert NavMap(common, s.prev) == map[];
    }
    if base > 0.0 {
      GrownIsNet(s, cur);
      TimesReturn(base, SumOf(GrownMap(common, cur, s.skippedFlow)));
    }
  }

  // ---------- Every row of a run ----------

  function FlowAt(book: Book, day: int, p: Pid): real {
    if day in book && p in book[day] then book[day][p].flow else 0.0
  }

  /** The flows of `p` on the given days after `start` and up to `end`. */
  function FlowsBetween(book: Book, days: seq<int>, start: int, end: int, p: Pid): real {
    if |days| == 0 then 0.0
    else
      var most, last := FlowsBetween(book, days[..|days| - 1], start, end, p), days[|days| - 1];
      if start < last <= end then most + FlowAt(book, last, p) else most
  }

  function FlowsOver(book: Book, days: seq<int>, start: int, end: int): Pid -> real {
    p => FlowsBetween(book, days, start, end, p)
  }

  /** The row is about two complete dates with no complete date between them, and nets every flow
      recorded after the first and up to the second, skipped dates included. */
  ghost predicate Accounts(book: Book, days: seq<int>, row: Row) {
    && row.start in book && row.end in book && row.start in days && row.end in days && row.start < row.end
    && Complete(book, row.start) && Complete(book, row.end)
    && (forall d | d in days && row.start < d < row.end :: d in book ==> !Complete(book, d))
    && IsRowOf(row, row.start, book[row.start], row.end, book[row.end], FlowsOver(book, days, row.start, row.end))
  }

  /** Where a scan stands after the days done: on the last complete one, with the flows since. */
  ghost predicate Stands(book: Book, done: seq<int>, s: Scan) {
    if s.prevDay.None? then forall d | d in done :: d in book ==> !Complete(book, d)
    else
      var day := s.prevDay.value;
      && day in book && day in done && Complete(book, day) && s.prev == book[day]
      && (forall d | d in done && day < d :: d in book ==> !Complete(book, d))
      && forall p, later | forall d | d in done :: d <= later ::
           FlowOf(s.skippedFlow, p) == FlowsBetween(book, done, day, later, p)
  }

  lemma FlowsLast(book: Book, most: seq<int>, last: int, start: int, end: int, p: Pid)
    ensures FlowsBetween(book, most + [last], start, end, p)
         == FlowsBetween(book, most, start, end, p) + if start < last <= end then FlowAt(book, last, p) else 0.0
  {
    assert (most + [last])[..|most|] == most;
  }

  lemma {:induction false} NoFlowsOutside(book: Book, days: seq<int>, start: int, end: int, p: Pid)
    requires forall d | d in days :: !(start < d <= end)
    ensures FlowsBetween(book, days, start, end, p) == 0.0
  {
    if |days| > 0 {
      var most, last := days[..|days| - 1], days[|days| - 1];
      assert days == most + [last] && last in days;
      assert forall d | d in most :: d in days;
      NoFlowsOutside(book, most, start, end, p);
    }
  }

  lemma AccountsKept(book: Book, done: seq<int>, last: int, row: Row)
    requires Accounts(book, done, row) && row.end < last
    ensures Accounts(book, done + [last], row)
  {
    forall p
      ensures FlowsOver(book, done + [last], row.start, row.end)(p) == FlowsOver(book, done, row.start, row.end)(p)
    {
      FlowsLast(book, done, last, row.start, row.end, p);
    }
    SameFlowsSameRow(row, row.start, book[row.start], row.end, book[row.end],
                     FlowsOver(book, done, row.start, row.end), FlowsOver(book, done + [last], row.start, row.end));
  }

  lemma SameFlowsSameRow(row: Row, start: int, a: Snaps, end: int, b: Snaps, flow: Pid -> real, flow': Pid -> real)
    requires IsRowOf(row, start, a, end, b, flow) && forall p | p in a && p in b :: flow(p) == flow'(p)
    ensures IsRowOf(row, start, a, end, b, flow')
  {
    assert (map p | p in Both(a, b) :: flow(p)) == map p | p in Both(a, b) :: flow'(p);
  }

  lemma CompleteDay(book: Book, done: seq<int>, last: int, s: Scan, row: Row)
    requires Stands(book, done, s) && s.prevDay.Some? && last in book && Complete(book, last)
    requires forall d | d in done :: d < last
    requires NewRows(s, last, book[last]) == [row]
    ensures Accounts(book, done + [last], row)
  {
    var start, cur := s.prevDay.value, book[last];
    RowExactly(s, last, cur);
    forall p | p in s.prev && p in cur
      ensures NetFlow(s, cur)(p) == FlowsOver(book, done + [last], start, last)(p)
    {
      FlowsLast(book, done, last, start, last, p);
    }
    SameFlowsSameRow(row, start, s.prev, last, cur, NetFlow(s, cur), FlowsOver(book, done + [last], start, last));
  }

  lemma StandsNext(book: Book, done: seq<int>, last: int, s: Scan)
    requires Stands(book, done, s) && last in book && forall d | d in done :: d < last
    ensures Stands(book, done + [last], Visit(book, s, last))
  {
    var days, t := done + [last], Visit(book, s, last);
    assert last in days && forall d :: d in days <==> d in done || d == last;
    if Complete(book, last) {
      forall p, later ensures FlowsBetween(book, days, last, later, p) == 0.0 {
        NoFlowsOutside(book, days, last, later, p);
      }
    } else if s.prevDay.Some? {
      var day := s.prevDay.value;
      forall p, later | forall d | d in days :: d <= later
        ensures FlowOf(t.skippedFlow, p) == FlowsBetween(book, days, day, later, p)
      {
        FlowsLast(book, done, last, day, later, p);
        assert forall d | d in done :: d <= later;
      }
    }
  }

  lemma VisitLast(book: Book, done: seq<int>, last: int)
    ensures VisitAll(book, done + [last], START) == Visit(book, VisitAll(book, done, START), last)
  {
    VisitSplit(book, done, [last], START);
    VisitOne(book, last, [], VisitAll(book, done, START));
  }

  /** Over any calendar: every row the scan gives accounts for itself, by the stored rows alone. */
  lemma {:induction false} EveryRowAccounts(book: Book, days: seq<int>)
    requires Increasing(days) && forall d | d in days :: d in book
    ensures Stands(book, days, VisitAll(book, days, START))
    ensures forall row | row in VisitAll(book, days, START).rows :: Accounts(book, days, row)
  {
    if |days| > 0 {
      var done, last := days[..|days| - 1], days[|days| - 1];
      assert days == done + [last];
      EveryRowAccounts(book, done);
      var s := VisitAll(book, done, START);
      VisitLast(book, done, last);
      StandsNext(book, done, last, s);
      RowsNext(book, done, last, s);
    }
  }

  lemma RowsNext(book: Book, done: seq<int>, last: int, s: Scan)
    requires Stands(book, done, s) && last in book && forall d | d in done :: d < last
    requires forall row | row in s.rows :: Accounts(book, done, row)
    ensures forall row | row in Visit(book, s, last).rows :: Accounts(book, done + [last], row)
  {
    forall row | row in s.rows ensures Accounts(book, done + [last], row) {
      AccountsKept(book, done, last, row);
    }
    if Complete(book, last) {
      RowExactly(s, last, book[last]);
      if NewRows(s, last, book[last]) != [] {
        CompleteDay(book, done, last, s, NewRows(s, last, book[last])[0]);
      }
    }
  }

  /** Rows come in order and do not overlap. */
  ghost predicate InOrder(rows: seq<Row>) {
    && (forall i | 0 <= i < |rows| :: rows[i].start < rows[i].end)
    && forall i, j | 0 <= i < j < |rows| :: rows[i].end <= rows[j].start
  }

  lemma {:induction false} RowsInOrder(book: Book, days: seq<int>)
    requires Increasing(days) && forall d | d in days :: d in book
    ensures var s := VisitAll(book, days, START);
      InOrder(s.rows) && forall row | row in s.rows :: s.prevDay.Some? && row.end <= s.prevDay.value
  {
    if |days| > 0 {
      var done, last := days[..|days| - 1], days[|days| - 1];
      assert days == done + [last];
      RowsInOrder(book, done);
      EveryRowAccounts(book, done);
      var s := VisitAll(book, done, START);
      VisitLast(book, done, last);
      NextInOrder(book, done, last, s);
    }
  }

  lemma NextInOrder(book: Book, done: seq<int>, last: int, s: Scan)
    requires Stands(book, done, s) && last in book && forall d | d in done :: d < last
    requires InOrder(s.rows) && forall row | row in s.rows :: s.prevDay.Some? && row.end <= s.prevDay.value
    ensures var t := Visit(book, s, last);
      InOrder(t.rows) && forall row | row in t.rows :: t.prevDay.Some? && row.end <= t.prevDay.value
  {
    var t := Visit(book, s, last);
    if Complete(book, last) {
      var more := NewRows(s, last, book[last]);
      forall i | 0 <= i < |s.rows| ensures s.prevDay.Some? && s.rows[i].end <= s.prevDay.value {
        assert s.rows[i] in s.rows;
      }
      assert forall row | row in t.rows :: row in s.rows || row in more;
    }
  }

  ghost function Incomplete(book: Book, days: seq<int>): set<int> {
    set d | d in days && d in book && !Complete(book, d)
  }

  lemma IncompleteNext(book: Book, done: seq<int>, last: int)
    requires last in book && Increasing(done + [last])
    ensures |Incomplete(book, done + [last])| == |Incomplete(book, done)| + if Complete(book, last) then 0 else 1
  {
    var days := done + [last];
    assert forall i | 0 <= i < |done| :: days[i] == done[i] && days[i] < days[|done|];
    assert last !in done;
    if Complete(book, last) {
      assert Incomplete(book, days) == Incomplete(book, done);
    } else {
      assert Incomplete(book, days) == Incomplete(book, done) + {last};
    }
  }

  /** The scan skips the dates that are not complete, and counts each once. */
  lemma {:induction false} SkippedAreIncomplete(book: Book, days: seq<int>)
    requires Increasing(days) && forall d | d in days :: d in book
    ensures VisitAll(book, days, START).skipped == |Incomplete(book, days)|
  {
    if |days| == 0 {
      assert Incomplete(book, days) == {};
    } else {
      var done, last := days[..|days| - 1], days[|days| - 1];
      assert days == done + [last] && Increasing(done);
      SkippedAreIncomplete(book, done);
      VisitLast(book, done, last);
      IncompleteNext(book, done, last);
    }
  }

  /** Two complete dates with none complete between them, worth something at the start. */
  ghost predicate Adjoin(book: Book, days: seq<int>, start: int, end: int) {
    && start in days && end in days && start < end && start in book && end in book
    && Complete(book, start) && Complete(book, end)
    && (forall d | d in days && start < d < end :: d in book ==> !Complete(book, d))
    && StartTotal(book[start], book[end]) > 0.0
  }

  /** The scan stands on the last complete date before `last`. */
  lemma StandsAtStart(book: Book, done: seq<int>, s: Scan, start: int, last: int)
    requires Stands(book, done, s) && start in done && start in book && Complete(book, start)
    requires forall d | d in done && start < d :: d < last && d in book && !Complete(book, d)
    ensures s.prevDay == Some(start) && s.prev == book[start]
  {
  }

  lemma LastIntervalHasItsRow(book: Book, done: seq<int>, s: Scan, start: int, last: int) returns (row: Row)
    requires Stands(book, done, s) && start in done && start in book && Complete(book, start)
    requires forall d | d in done && start < d :: d < last && d in book && !Complete(book, d)
    requires last in book && Complete(book, last) && StartTotal(book[start], book[last]) > 0.0
    ensures row in Visit(book, s, last).rows && row.start == start && row.end == last
  {
    StandsAtStart(book, done, s, start, last);
    RowExactly(s, last, book[last]);
    row := NewRows(s, last, book[last])[0];
  }

  lemma RowsKept(book: Book, s: Scan, day: int, row: Row)
    requires row in s.rows
    ensures row in Visit(book, s, day).rows
  {
  }

  lemma AdjoinBefore(book: Book, done: seq<int>, last: int, start: int, end: int)
    requires Increasing(done + [last]) && (forall d | d in done + [last] :: d in book)
    requires Adjoin(book, done + [last], start, end)
    ensures start in done && Increasing(done) && forall d | d in done :: d in book
    ensures end != last ==> Adjoin(book, done, start, end)
    ensures end == last ==> forall d | d in done && start < d :: d < last && d in book && !Complete(book, d)
  {
    var days := done + [last];
    assert days[|done|] == last && days[..|done|] == done;
    forall d | d in done ensures d in days && d < last {
      var i :| 0 <= i < |done| && done[i] == d;
      assert days[i] == d;
    }
    forall d | d in days && d != last ensures d in done {}
    forall i, j | 0 <= i < j < |done| ensures done[i] < done[j] {
      assert days[i] == done[i] && days[j] == done[j];
    }
  }

  /** And no row is missing: any two adjoining complete dates have theirs. */
  lemma {:induction false} EveryIntervalHasItsRow(book: Book, days: seq<int>, start: int, end: int) returns (row: Row)
    requires Increasing(days) && forall d | d in days :: d in book
    requires Adjoin(book, days, start, end)
    ensures row in VisitAll(book, days, START).rows && row.start == start && row.end == end
  {
    var done, last := days[..|days| - 1], days[|days| - 1];
    assert days == done + [last];
    VisitLast(book, done, last);
    AdjoinBefore(book, done, last, start, end);
    if end == last {
      EveryRowAccounts(book, done);
      row := LastIntervalHasItsRow(book, done, VisitAll(book, done, START), start, last);
    } else {
      row := EveryIntervalHasItsRow(book, done, start, end);
      RowsKept(book, VisitAll(book, done, START), last, row);
    }
  }

  /** A at 100 and then 110; B opens on the second day at 50 with no flow: the return is a tenth. */
  lemma NewcomerAtFifty(row: Row)
    requires var one: Snaps := map["A" := Snap("A", 1, 100.0, 0.0, false)];
      NewRows(Scan(Some(1), one, map[], 0, []), 2,
              map["A" := Snap("A", 2, 110.0, 0.0, false), "B" := Snap("B", 2, 50.0, 0.0, false)]) == [row]
    ensures row == Row(1, 2, 0.1, false)
  {
    var one: Snaps := map["A" := Snap("A", 1, 100.0, 0.0, false)];
    var two: Snaps := map["A" := Snap("A", 2, 110.0, 0.0, false), "B" := Snap("B", 2, 50.0, 0.0, false)];
    var s := Scan(Some(1), one, map[], 0, []);
    RowExactly(s, 2, two);
    assert Both(one, two) == {"A"};
    OnlyOne("A", 100.0);
    OnlyOne("A", 110.0);
    OnlyOne("A", 0.0);
    assert (map p | p in Both(one, two) :: one[p].nav) == map["A" := 100.0];
    assert (map p | p in Both(one, two) :: two[p].nav) == map["A" := 110.0];
    assert (map p | p in Both(one, two) :: NetFlow(s, two)(p)) == map["A" := 0.0];
  }

  lemma OnlyOne(p: Pid, x: real)
    ensures SumOf(map[p := x]) == x
  {
    SumRemove(map[p := x], p);
    assert map[p := x] - {p} == map[];
  }
}
