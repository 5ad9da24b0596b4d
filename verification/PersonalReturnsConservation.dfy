/** What the return rows add up to. Over a stretch of dates whose complete dates hold one set
    of portfolios, the rows chain end to end and account for every flow exactly once. */
module PersonalReturnsConservation {
  import opened Wrappers
  import opened Sums
  import opened PersonalReturns

  ghost function Total(ps: set<Pid>, snaps: Snaps): real
    requires ps <= snaps.Keys
  {
    SumOf(NavMap(ps, snaps))
  }

  function DayFlows(ps: set<Pid>, snaps: Snaps): map<Pid, real> {
    map p | p in ps :: if p in snaps then snaps[p].flow else 0.0
  }

  function Carried(ps: set<Pid>, flows: map<Pid, real>): map<Pid, real> {
    map p | p in ps :: FlowOf(flows, p)
  }

  ghost function FlowsOn(ps: set<Pid>, book: Book, day: int): real {
    if day in book then SumOf(DayFlows(ps, book[day])) else 0.0
  }

  /** Every flow of `ps` recorded on `days`, whether or not the date was skipped. */
  ghost function FlowTotal(ps: set<Pid>, book: Book, days: seq<int>): real {
    if |days| == 0 then 0.0 else FlowsOn(ps, book, days[0]) + FlowTotal(ps, book, days[1..])
  }

  /** Each row starts where the one before it ended, from `start` to `end`. */
  ghost predicate Chained(rows: seq<Row>, start: int, end: int) {
    if |rows| == 0 then start == end
    else rows[0].start == start && Chained(rows[1..], rows[0].end, end)
  }

  ghost predicate StartsHold(ps: set<Pid>, book: Book, rows: seq<Row>) {
    forall r | r in rows :: r.start in book && ps <= book[r.start].Keys
  }

  /** The rows' returns in money: each start total times its return. */
  ghost function Earned(ps: set<Pid>, book: Book, rows: seq<Row>): real
    requires StartsHold(ps, book, rows)
  {
    if |rows| == 0 then 0.0
    else
      assert rows[0] in rows;
      Total(ps, book[rows[0].start]) * rows[0].ret + Earned(ps, book, rows[1..])
  }

  lemma GrownTotal(ps: set<Pid>, cur: Snaps, flows: map<Pid, real>)
    requires ps == cur.Keys
    ensures SumOf(GrownMap(ps, cur, flows)) == Total(ps, cur) - SumOf(DayFlows(ps, cur)) - SumOf(Carried(ps, flows))
  {
    var net := map p | p in ps :: DayFlows(ps, cur)[p] + Carried(ps, flows)[p];
    SumPlus(DayFlows(ps, cur), Carried(ps, flows), net);
    SumPlus(GrownMap(ps, cur, flows), net, NavMap(ps, cur));
  }

  lemma CarriedGrows(ps: set<Pid>, flows: map<Pid, real>, snaps: Snaps)
    ensures SumOf(Carried(ps, AddFlows(flows, snaps))) == SumOf(Carried(ps, flows)) + SumOf(DayFlows(ps, snaps))
  {
    SumPlus(Carried(ps, flows), DayFlows(ps, snaps), Carried(ps, AddFlows(flows, snaps)));
  }

  lemma ReturnInMoney(base: real, grown: real)
    requires base > 0.0
    ensures base * (grown / base - 1.0) == grown - base
  {
  }

  /** A scan standing on a complete date of the stretch. */
  ghost predicate Standing(ps: set<Pid>, book: Book, s: Scan) {
    && s.prevDay.Some? && s.prevDay.value in book && s.prev == book[s.prevDay.value]
    && s.prev.Keys == ps && Total(ps, s.prev) > 0.0
  }

  ghost function CarriedTotal(ps: set<Pid>, s: Scan): real {
    SumOf(Carried(ps, s.skippedFlow))
  }

  lemma RowOf(ps: set<Pid>, s: Scan, day: int, cur: Snaps) returns (row: Row)
    requires ps != {} && s.prevDay.Some? && s.prev.Keys == ps && cur.Keys == ps && Total(ps, s.prev) > 0.0
    ensures NewRows(s, day, cur) == [row] && row.start == s.prevDay.value && row.end == day
    ensures Total(ps, s.prev) * row.ret == SumOf(GrownMap(ps, cur, s.skippedFlow)) - Total(ps, s.prev)
  {
    assert cur.Keys * s.prev.Keys == ps;
    row := NewRows(s, day, cur)[0];
    ReturnInMoney(Total(ps, s.prev), SumOf(GrownMap(ps, cur, s.skippedFlow)));
  }

  lemma CompleteDate(ps: set<Pid>, book: Book, day: int, s: Scan) returns (row: Row)
    requires ps != {} && Standing(ps, book, s)
    requires day in book && Complete(book, day) && book[day].Keys == ps
    ensures Visit(book, s, day) == Scan(Some(day), book[day], map[], s.skipped, s.rows + [row])
    ensures row.start == s.prevDay.value && row.end == day
    ensures Total(ps, s.prev) * row.ret
         == Total(ps, book[day]) - Total(ps, s.prev) - FlowsOn(ps, book, day) - CarriedTotal(ps, s)
  {
    row := RowOf(ps, s, day, book[day]);
    GrownTotal(ps, book[day], s.skippedFlow);
  }

  lemma AppendAssociates(a: seq<Row>, b: seq<Row>, c: seq<Row>)
    ensures (a + b) + c == a + (b + c)
  {
  }

  lemma SkippedDate(ps: set<Pid>, book: Book, day: int, s: Scan)
    requires Standing(ps, book, s) && day in book && !Complete(book, day)
    ensures var t := Visit(book, s, day);
      && Standing(ps, book, t) && t.prevDay == s.prevDay && t.prev == s.prev && t.rows == s.rows
      && CarriedTotal(ps, t) == CarriedTotal(ps, s) + FlowsOn(ps, book, day)
  {
    CarriedGrows(ps, s.skippedFlow, book[day]);
  }

  /** The rows added after `s` chain up to `t` and account for what happened in between. */
  ghost predicate Accounts(ps: set<Pid>, book: Book, flows: real, s: Scan, t: Scan, added: seq<Row>) {
    && Standing(ps, book, s) && Standing(ps, book, t)
    && t.rows == s.rows + added && Chained(added, s.prevDay.value, t.prevDay.value) && StartsHold(ps, book, added)
    && Earned(ps, book, added) + flows + CarriedTotal(ps, s)
       == Total(ps, t.prev) - Total(ps, s.prev) + CarriedTotal(ps, t)
  }

  lemma RowInFront(
    ps: set<Pid>, book: Book, row: Row, flow: real, flows: real, s: Scan, s1: Scan, t: Scan, more: seq<Row>)
    requires Standing(ps, book, s) && Accounts(ps, book, flows, s1, t, more)
    requires s1.rows == s.rows + [row] && row.start == s.prevDay.value && row.end == s1.prevDay.value
    requires Total(ps, s.prev) * row.ret == Total(ps, s1.prev) - Total(ps, s.prev) - flow - CarriedTotal(ps, s)
    requires CarriedTotal(ps, s1) == 0.0
    ensures Accounts(ps, book, flow + flows, s, t, [row] + more)
  {
    assert ([row] + more)[1..] == more;
    AppendAssociates(s.rows, [row], more);
  }

  /** The accounting over the dates of the stretch after its first. */
  lemma {:induction false} StretchAccounts(ps: set<Pid>, book: Book, days: seq<int>, s: Scan) returns (added: seq<Row>)
    requires ps != {} && Standing(ps, book, s)
    requires forall d | d in days :: d in book
    requires forall d | d in days && Complete(book, d) :: book[d].Keys == ps && Total(ps, book[d]) > 0.0
    ensures Accounts(ps, book, FlowTotal(ps, book, days), s, VisitAll(book, days, s), added)
    decreases |days|
  {
    if |days| == 0 {
      added := [];
    } else {
      var day, rest := days[0], days[1..];
      assert day in days;
      var s1 := Visit(book, s, day);
      if Complete(book, day) {
        var row := CompleteDate(ps, book, day, s);
        var more := StretchAccounts(ps, book, rest, s1);
        SumZero(Carried(ps, map[]));
        RowInFront(ps, book, row, FlowsOn(ps, book, day), FlowTotal(ps, book, rest), s, s1, VisitAll(book, rest, s1),
            more);
        added := [row] + more;
      } else {
        SkippedDate(ps, book, day, s);
        added := StretchAccounts(ps, book, rest, s1);
      }
    }
  }

  lemma {:induction false} FlowTotalLast(ps: set<Pid>, book: Book, days: seq<int>, last: int)
    ensures FlowTotal(ps, book, days + [last]) == FlowTotal(ps, book, days) + FlowsOn(ps, book, last)
    decreases |days|
  {
    if |days| > 0 {
      assert (days + [last])[1..] == days[1..] + [last];
      FlowTotalLast(ps, book, days[1..], last);
    } else {
      assert days + [last] == [last];
      assert FlowTotal(ps, book, [last][1..]) == 0.0;
    }
  }

  lemma {:induction false} ChainedLast(rows: seq<Row>, start: int, row: Row)
    requires Chained(rows, start, row.start)
    ensures Chained(rows + [row], start, row.end)
    decreases |rows|
  {
    if |rows| > 0 {
      assert (rows + [row])[1..] == rows[1..] + [row];
      ChainedLast(rows[1..], rows[0].end, row);
    } else {
      assert rows + [row] == [row];
    }
  }

  lemma {:induction false} EarnedLast(ps: set<Pid>, book: Book, rows: seq<Row>, row: Row)
    requires StartsHold(ps, book, rows) && row.start in book && ps <= book[row.start].Keys
    ensures StartsHold(ps, book, rows + [row])
    ensures Earned(ps, book, rows + [row]) == Earned(ps, book, rows) + Total(ps, book[row.start]) * row.ret
    decreases |rows|
  {
    if |rows| > 0 {
      assert (rows + [row])[1..] == rows[1..] + [row] && rows[0] in rows;
      EarnedLast(ps, book, rows[1..], row);
    } else {
      assert rows + [row] == [row];
      assert Earned(ps, book, [row][1..]) == 0.0;
    }
  }

  lemma {:induction false} RowsOnlyGrow(book: Book, days: seq<int>, s: Scan)
    ensures s.rows <= VisitAll(book, days, s).rows
    decreases |days|
  {
    if |days| > 0 {
      RowsOnlyGrow(book, days[1..], Visit(book, s, days[0]));
    }
  }

  lemma RowBehind(
    ps: set<Pid>, book: Book, row: Row, flow: real, flows: real, s: Scan, t: Scan, end: real, most: seq<Row>)
    requires Accounts(ps, book, flows, s, t, most) && CarriedTotal(ps, s) == 0.0
    requires row.start == t.prevDay.value
    requires Total(ps, t.prev) * row.ret == end - Total(ps, t.prev) - flow - CarriedTotal(ps, t)
    ensures StartsHold(ps, book, most + [row]) && Chained(most + [row], s.prevDay.value, row.end)
    ensures Earned(ps, book, most + [row]) == end - Total(ps, s.prev) - (flows + flow)
  {
    ChainedLast(most, s.prevDay.value, row);
    EarnedLast(ps, book, most, row);
  }

  /** One more complete date closes the stretch; nothing is asked of its total. */
  lemma StretchCloses(ps: set<Pid>, book: Book, middle: seq<int>, last: int, s: Scan) returns (added: seq<Row>)
    requires ps != {} && Standing(ps, book, s) && CarriedTotal(ps, s) == 0.0
    requires forall d | d in middle :: d in book
    requires forall d | d in middle && Complete(book, d) :: book[d].Keys == ps && Total(ps, book[d]) > 0.0
    requires last in book && Complete(book, last) && book[last].Keys == ps
    ensures Visit(book, VisitAll(book, middle, s), last).rows == s.rows + added
    ensures added != [] && Chained(added, s.prevDay.value, last) && StartsHold(ps, book, added)
    ensures Earned(ps, book, added) == Total(ps, book[last]) - Total(ps, s.prev) - FlowTotal(ps, book, middle + [last])
  {
    var most := StretchAccounts(ps, book, middle, s);
    var t := VisitAll(book, middle, s);
    var row := CompleteDate(ps, book, last, t);
    RowBehind(ps, book, row, FlowsOn(ps, book, last), FlowTotal(ps, book, middle), s, t, Total(ps, book[last]), most);
    added := most + [row];
    AppendAssociates(s.rows, most, [row]);
    FlowTotalLast(ps, book, middle, last);
  }

  lemma WholeScan(book: Book, before: seq<int>, first: int, middle: seq<int>, last: int, after: seq<int>)
    ensures var s := Visit(book, VisitAll(book, before, START), first);
      && VisitAll(book, before + [first], START) == s
      && Visit(book, VisitAll(book, middle, s), last).rows
         <= VisitAll(book, before + ([first] + (middle + ([last] + after))), START).rows
  {
    var rest := middle + ([last] + after);
    var s0 := VisitAll(book, before, START);
    var s := Visit(book, s0, first);
    VisitSplit(book, before, [first] + rest, START);
    VisitSplit(book, before, [first], START);
    VisitOne(book, first, rest, s0);
    VisitOne(book, first, [], s0);
    assert [first] + [] == [first];
    VisitSplit(book, middle, [last] + after, s);
    VisitOne(book, last, after, VisitAll(book, middle, s));
    RowsOnlyGrow(book, after, Visit(book, VisitAll(book, middle, s), last));
  }

  /** Over any stretch from complete date `first` to complete date `last` whose complete dates
      all hold the portfolios `ps`, with every start total positive: the emitted rows of the
      stretch chain from `first` to `last`, and start total times return, summed, is the growth
      in total value less every flow recorded after the first date, each once, on complete and
      skipped dates alike. */
  lemma ReturnsAccountForEveryFlow(
    ps: set<Pid>, book: Book, before: seq<int>, first: int, middle: seq<int>, last: int, after: seq<int>)
    returns (added: seq<Row>)
    requires ps != {} && Calendar(before + ([first] + (middle + ([last] + after))), book)
    requires first in book && Complete(book, first) && book[first].Keys == ps && Total(ps, book[first]) > 0.0
    requires last in book && Complete(book, last) && book[last].Keys == ps
    requires forall d | d in middle :: d in book
    requires forall d | d in middle && Complete(book, d) :: book[d].Keys == ps && Total(ps, book[d]) > 0.0
    ensures VisitAll(book, before + [first], START).rows + added
         <= VisitAll(book, before + ([first] + (middle + ([last] + after))), START).rows
    ensures added != [] && Chained(added, first, last) && StartsHold(ps, book, added)
    ensures Earned(ps, book, added)
         == Total(ps, book[last]) - Total(ps, book[first]) - FlowTotal(ps, book, middle + [last])
  {
    WholeScan(book, before, first, middle, last, after);
    var s := Visit(book, VisitAll(book, before, START), first);
    SumZero(Carried(ps, s.skippedFlow));
    added := StretchCloses(ps, book, middle, last, s);
  }
}
