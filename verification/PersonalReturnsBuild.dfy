/** The loops of `build_personal_returns`, against the scan of PersonalReturns. */
module PersonalReturnsBuild {
  import opened Wrappers
  import opened Sums
  import opened PersonalReturns
  import Decimals
  import OrderedSets
  import PersonalReturnsRows
  import Sorting
  import Text

  // ---------- The specification: rows by day, days in order ----------

  function On(book: Book, day: int): Snaps {
    if day in book then book[day] else map[]
  }

  function Put(book: Book, snap: Snap): Book {
    book[snap.day := On(book, snap.day)[snap.pid := snap]]
  }

  function ByDay(snaps: seq<Snap>): Book {
    if |snaps| == 0 then map[] else Put(ByDay(snaps[..|snaps| - 1]), snaps[|snaps| - 1])
  }

  function Earlier(): (int, int) -> bool {
    (a: int, b: int) => a <= b
  }

  ghost function Days(snaps: seq<Snap>): (r: seq<int>)
    ensures Calendar(r, ByDay(snaps))
  {
    OrderedSets.InOrder(ByDay(snaps).Keys, Earlier())
  }

  // ---------- First and last snapshots ----------

  ghost predicate Between(first: map<Pid, int>, last: map<Pid, int>, day: int, p: Pid) {
    p in first && p in last && first[p] <= day <= last[p]
  }

  ghost predicate EndsAt(book: Book, first: map<Pid, int>, last: map<Pid, int>, lastNav: map<Pid, real>, p: Pid) {
    && (p in first ==> first[p] in book && p in book[first[p]])
    && (p in last ==> last[p] in book && p in book[last[p]] && p in lastNav && book[last[p]][p].nav == lastNav[p])
  }

  /** What the first loop knows about each portfolio seen so far. */
  ghost predicate Spans(book: Book, first: map<Pid, int>, last: map<Pid, int>, lastNav: map<Pid, real>) {
    && first.Keys == last.Keys == lastNav.Keys
    && (forall d, p | d in book && p in book[d] :: Between(first, last, d, p))
    && (forall p :: EndsAt(book, first, last, lastNav, p))
  }

  predicate SortedByDay(snaps: seq<Snap>) {
    forall i, j | 0 <= i < j < |snaps| :: snaps[i].day <= snaps[j].day
  }

  /** Ordering any snapshots by day makes them loadable, several of one day included. */
  lemma AnySnapshotsCanBeLoaded(snaps: seq<Snap>)
    ensures SortedByDay(Sorting.Sort(snaps, Daily()))
    ensures multiset(Sorting.Sort(snaps, Daily())) == multiset(snaps)
  {
    var ordered := Sorting.Sort(snaps, Daily());
    Sorting.SortSorts(snaps, Daily());
    Sorting.SortPermutes(snaps, Daily());
    forall i, j | 0 <= i < j < |ordered| ensures ordered[i].day <= ordered[j].day {
      assert Daily()(ordered[i], ordered[j]);
    }
  }

  function Daily(): (Snap, Snap) -> bool {
    (a: Snap, b: Snap) => a.day <= b.day
  }

  ghost predicate NoneAfter(book: Book, day: int) {
    forall d | d in book :: d <= day
  }

  function FirstSeen(first: map<Pid, int>, snap: Snap): map<Pid, int> {
    if snap.pid in first then first else first[snap.pid := snap.day]
  }

  lemma BetweenGrows(
    book: Book, first: map<Pid, int>, last: map<Pid, int>, lastNav: map<Pid, real>, snap: Snap, d: int, p: Pid)
    requires Spans(book, first, last, lastNav) && NoneAfter(book, snap.day)
    requires d in Put(book, snap) && p in Put(book, snap)[d]
    ensures Between(FirstSeen(first, snap), last[snap.pid := snap.day], d, p)
  {
    PutHolds(book, snap, d, p);
    assert d in book && p in book[d] ==> Between(first, last, d, p);
    if p == snap.pid && p in first {
      assert EndsAt(book, first, last, lastNav, p);
    }
  }

  lemma EndsGrow(book: Book, first: map<Pid, int>, last: map<Pid, int>, lastNav: map<Pid, real>, snap: Snap, p: Pid)
    requires Spans(book, first, last, lastNav) && NoneAfter(book, snap.day)
    ensures EndsAt(Put(book, snap), FirstSeen(first, snap), last[snap.pid := snap.day],
                   lastNav[snap.pid := snap.nav], p)
  {
    assert EndsAt(book, first, last, lastNav, p);
    if p == snap.pid {
      PutHolds(book, snap, snap.day, p);
    }
    if p in first {
      PutHolds(book, snap, first[p], p);
      PutHolds(book, snap, last[p], p);
    }
  }

  lemma SpansGrow(book: Book, first: map<Pid, int>, last: map<Pid, int>, lastNav: map<Pid, real>, snap: Snap)
    requires Spans(book, first, last, lastNav) && NoneAfter(book, snap.day)
    ensures Spans(Put(book, snap), FirstSeen(first, snap), last[snap.pid := snap.day], lastNav[snap.pid := snap.nav])
    ensures NoneAfter(Put(book, snap), snap.day)
  {
    var book', first' := Put(book, snap), FirstSeen(first, snap);
    var last', lastNav' := last[snap.pid := snap.day], lastNav[snap.pid := snap.nav];
    forall d, p: Pid | d in book' && p in book'[d] ensures Between(first', last', d, p) {
      BetweenGrows(book, first, last, lastNav, snap, d, p);
    }
    forall p: Pid ensures EndsAt(book', first', last', lastNav', p) {
      EndsGrow(book, first, last, lastNav, snap, p);
    }
  }

  lemma PutHolds(book: Book, snap: Snap, day: int, p: Pid)
    ensures var book' := Put(book, snap);
      && (day in book' && p in book'[day] <==> (day == snap.day && p == snap.pid) || (day in book && p in book[day]))
      && (day in book && p in book[day] && !(day == snap.day && p == snap.pid) ==> book'[day][p] == book[day][p])
      && snap.day in book' && snap.pid in book'[snap.day] && book'[snap.day][snap.pid] == snap
  {
  }

  method Load(snaps: seq<Snap>)
    returns (byDay: Book, first: map<Pid, int>, last: map<Pid, int>, lastNav: map<Pid, real>)
    requires SortedByDay(snaps)
    ensures byDay == ByDay(snaps) && Spans(byDay, first, last, lastNav)
  {
    byDay, first, last, lastNav := map[], map[], map[], map[];
    for i := 0 to |snaps|
      invariant byDay == ByDay(snaps[..i]) && Spans(byDay, first, last, lastNav)
      invariant i < |snaps| ==> NoneAfter(byDay, snaps[i].day)
    {
      var snap := snaps[i];
      SpansGrow(byDay, first, last, lastNav, snap);
      assert snaps[..i + 1][..i] == snaps[..i];
      if snap.day !in byDay {
        byDay := byDay[snap.day := map[]];
      }
      byDay := byDay[snap.day := byDay[snap.day][snap.pid := snap]];
      assert byDay == ByDay(snaps[..i + 1]);
      if snap.pid !in first {
        first := first[snap.pid := snap.day];
      }
      last := last[snap.pid := snap.day];
      lastNav := lastNav[snap.pid := snap.nav];
    }
    assert snaps[..|snaps|] == snaps;
  }

  /** The source's set test on `first`, `last` and `closed` is exactly `Complete`. */
  lemma ActiveByTables(
    book: Book, first: map<Pid, int>, last: map<Pid, int>, lastNav: map<Pid, real>, pid: Pid, day: int)
    requires Spans(book, first, last, lastNav)
    ensures Active(book, pid, day)
       <==> (pid in first && first[pid] <= day && (lastNav[pid] <= 0.0 ==> day <= last[pid]))
  {
    assert EndsAt(book, first, last, lastNav, pid);
    assert forall d | d in book && pid in book[d] :: Between(first, last, d, pid);
    if pid in first {
      assert first[pid] in book && pid in book[first[pid]];
      assert last[pid] in book && pid in book[last[pid]];
      assert SeenBy(book, pid, day) <==> first[pid] <= day;
      assert SeenFrom(book, pid, day) <==> day <= last[pid];
      assert Closed(book, pid) <==> lastNav[pid] <= 0.0;
    }
  }

  // ---------- The loops inside one date ----------

  method CarryFlows(flows: map<Pid, real>, snaps: Snaps) returns (r: map<Pid, real>)
    ensures r == AddFlows(flows, snaps)
  {
    r := flows;
    var rest := snaps.Keys;
    while rest != {}
      invariant rest <= snaps.Keys
      invariant r == AddFlows(flows, map p | p in snaps && p !in rest :: snaps[p])
    {
      var p :| p in rest;
      r := r[p := FlowOf(r, p) + snaps[p].flow];
      rest := rest - {p};
    }
    assert (map p | p in snaps && p !in rest :: snaps[p]) == snaps;
  }

  // ---------- The whole payload ----------

  datatype Payload = Payload(
    currency: string, portfolios: nat, firstDate: Option<int>, asOf: Option<int>, skipped: nat, rows: seq<Row>)
  datatype Refusal = MixedCurrencies

  /** A row as published, its return rounded to ten places. */
  function Published(row: Row): (r: Row)
    ensures row.ret - 0.00000000005 <= r.ret <= row.ret + 0.00000000005
  {
    row.(ret := Decimals.TenPlaces(row.ret))
  }

  function PublishedRows(rows: seq<Row>): seq<Row> {
    seq(|rows|, i requires 0 <= i < |rows| => Published(rows[i]))
  }

  ghost predicate OneCurrency(codes: seq<Option<string>>) {
    forall a, b | a in codes && b in codes :: Text.Currency(a) == Text.Currency(b)
  }

  lemma OneCurrencyExactly(codes: seq<Option<string>>)
    ensures OneCurrency(codes)
       <==> forall i | 0 <= i < |codes| :: Text.Currency(codes[i]) == Text.Currency(codes[0])
  {
    if forall i | 0 <= i < |codes| :: Text.Currency(codes[i]) == Text.Currency(codes[0]) {
      forall a, b | a in codes && b in codes ensures Text.Currency(a) == Text.Currency(b) {
        var i :| 0 <= i < |codes| && codes[i] == a;
        var j :| 0 <= j < |codes| && codes[j] == b;
      }
    }
  }

  ghost predicate MeansComplete(book: Book, active: set<Pid>, day: int)
    requires day in book
  {
    active <= book[day].Keys <==> Complete(book, day)
  }

  method ActiveOn(book: Book, first: map<Pid, int>, last: map<Pid, int>, lastNav: map<Pid, real>, day: int)
    returns (active: set<Pid>)
    requires Spans(book, first, last, lastNav) && day in book
    ensures MeansComplete(book, active, day)
  {
    var closed := set p | p in lastNav && lastNav[p] <= 0.0;
    active := set p | p in first && first[p] <= day && (p !in closed || day <= last[p]);
    forall p ensures Active(book, p, day) <==> p in active {
      ActiveByTables(book, first, last, lastNav, p, day);
    }
  }

  /** The scan as the loop keeps it: its rows are rounded as they are made. */
  function Rounded(s: Scan): Scan {
    s.(rows := PublishedRows(s.rows))
  }

  method RowsFor(s: Scan, day: int, cur: Snaps) returns (rows: seq<Row>)
    ensures rows == PublishedRows(NewRows(s, day, cur))
  {
    rows := [];
    var common := cur.Keys * s.prev.Keys;
    if s.prevDay.Some? && common != {} {
      var base := SumValues(NavMap(common, s.prev));
      if base > 0.0 {
        var grown := SumValues(GrownMap(common, cur, s.skippedFlow));
        rows := [Row(s.prevDay.value, day, Decimals.TenPlaces(grown / base - 1.0),
                     exists p :: p in common && (s.prev[p].estimated || cur[p].estimated))];
      }
    }
  }

  lemma PublishedAppend(a: seq<Row>, b: seq<Row>)
    ensures PublishedRows(a + b) == PublishedRows(a) + PublishedRows(b)
  {
  }

  lemma SameNewRows(exact: Scan, day: int, cur: Snaps)
    ensures NewRows(Rounded(exact), day, cur) == NewRows(exact, day, cur)
  {
  }

  method VisitDay(byDay: Book, day: int, complete: bool, s: Scan, ghost exact: Scan) returns (s': Scan)
    requires day in byDay && (complete <==> Complete(byDay, day)) && s == Rounded(exact)
    ensures s' == Rounded(Visit(byDay, exact, day))
  {
    var cur := byDay[day];
    if !complete {
      var carried := CarryFlows(s.skippedFlow, cur);
      s' := s.(skipped := s.skipped + 1, skippedFlow := carried);
    } else {
      var more := RowsFor(s, day, cur);
      SameNewRows(exact, day, cur);
      PublishedAppend(exact.rows, NewRows(exact, day, cur));
      s' := Scan(Some(day), cur, map[], s.skipped, s.rows + more);
    }
  }

  method ScanDays(byDay: Book, first: map<Pid, int>, last: map<Pid, int>, lastNav: map<Pid, real>, days: seq<int>)
    returns (s: Scan)
    requires Spans(byDay, first, last, lastNav) && forall d | d in days :: d in byDay
    ensures s == Rounded(VisitAll(byDay, days, START))
  {
    s := START;
    ghost var exact := START;
    for k := 0 to |days|
      invariant VisitAll(byDay, days[k..], exact) == VisitAll(byDay, days, START) && s == Rounded(exact)
    {
      var day := days[k];
      assert day in days && days[k..][1..] == days[k + 1..];
      var active := ActiveOn(byDay, first, last, lastNav, day);
      s := VisitDay(byDay, day, active <= byDay[day].Keys, s, exact);
      exact := Visit(byDay, exact, day);
    }
  }

  function FirstDate(rows: seq<Row>): Option<int> {
    if rows == [] then None else Some(rows[0].start)
  }

  function LastDate(rows: seq<Row>): Option<int> {
    if rows == [] then None else Some(rows[|rows| - 1].end)
  }

  lemma SameDates(rows: seq<Row>)
    ensures FirstDate(PublishedRows(rows)) == FirstDate(rows) && LastDate(PublishedRows(rows)) == LastDate(rows)
  {
  }

  /** The two dates span the rows: every row lies between them, and each is one row's own. */
  lemma DatesSpanTheRows(book: Book, days: seq<int>)
    requires Increasing(days) && forall d | d in days :: d in book
    ensures var rows := VisitAll(book, days, START).rows;
      && (FirstDate(rows).Some? <==> rows != []) && (LastDate(rows).Some? <==> rows != [])
      && (rows != [] ==>
            && (forall row | row in rows :: FirstDate(rows).value <= row.start < row.end <= LastDate(rows).value)
            && (exists row :: row in rows && row.start == FirstDate(rows).value)
            && (exists row :: row in rows && row.end == LastDate(rows).value))
  {
    PersonalReturnsRows.RowsInOrder(book, days);
    if VisitAll(book, days, START).rows != [] {
      OrderedRowsSpan(VisitAll(book, days, START).rows);
    }
  }

  lemma OrderedRowsSpan(rows: seq<Row>)
    requires PersonalReturnsRows.InOrder(rows) && rows != []
    ensures forall row | row in rows :: rows[0].start <= row.start < row.end <= rows[|rows| - 1].end
    ensures rows[0] in rows && rows[|rows| - 1] in rows
  {
    forall row | row in rows ensures rows[0].start <= row.start < row.end <= rows[|rows| - 1].end {
      var i :| 0 <= i < |rows| && rows[i] == row;
      assert i == 0 || rows[0].end <= rows[i].start;
      assert i == |rows| - 1 || rows[i].end <= rows[|rows| - 1].start;
    }
  }

  method BaseCurrency(codes: seq<Option<string>>) returns (currency: Option<string>)
    ensures currency.Some? <==> OneCurrency(codes)
    ensures currency.Some? ==> currency.value == if codes == [] then "USD" else Text.Currency(codes[0])
  {
    var currencies := set c | c in codes :: Text.Currency(c);
    assert forall c | c in codes :: Text.Currency(c) in currencies;
    if exists a, b | a in currencies && b in currencies :: a != b {
      return None;
    }
    currency := Some(if codes == [] then "USD" else Text.Currency(codes[0]));
  }

  /** The payload carries the exact scan's rows, each rounded on its own. */
  method BuildPersonalReturns(codes: seq<Option<string>>, snaps: seq<Snap>) returns (r: Result<Payload, Refusal>)
    requires SortedByDay(snaps)
    ensures r.Ok? <==> OneCurrency(codes)
    ensures r.Ok? ==>
      var t := VisitAll(ByDay(snaps), Days(snaps), START);
      && r.value.rows == PublishedRows(t.rows) && r.value.skipped == t.skipped
      && r.value.currency == (if codes == [] then "USD" else Text.Currency(codes[0]))
      && r.value.portfolios == |codes|
      && r.value.firstDate == FirstDate(t.rows) && r.value.asOf == LastDate(t.rows)
  {
    var currency := BaseCurrency(codes);
    if currency.None? {
      return Err(MixedCurrencies);
    }
    var byDay, first, last, lastNav := Load(snaps);
    var days := OrderedSets.SortedSet(byDay.Keys, Earlier());
    var s := ScanDays(byDay, first, last, lastNav, days);
    SameDates(VisitAll(byDay, days, START).rows);
    r := Ok(Payload(currency.value, |codes|, FirstDate(s.rows), LastDate(s.rows), s.skipped, s.rows));
  }
}
