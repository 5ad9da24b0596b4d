/** The household's flow-neutralised return series: `build_personal_returns` in
    api/services/data_spine.py. */
module PersonalReturns {
  import opened Wrappers
  import opened Sums

  type Pid = string

  datatype Snap = Snap(pid: Pid, day: int, nav: real, flow: real, estimated: bool)

  /** One day's snapshots by portfolio. */
  type Snaps = map<Pid, Snap>
  type Book = map<int, Snaps>

  datatype Row = Row(start: int, end: int, ret: real, estimated: bool)

  /** What the scan over dates carries: the last complete date and its snapshots, the flows of
      the dates skipped since, and the rows so far. */
  datatype Scan = Scan(prevDay: Option<int>, prev: Snaps, skippedFlow: map<Pid, real>, skipped: nat, rows: seq<Row>)

  const START := Scan(None, map[], map[], 0, [])

  // ---------- Which portfolios a date needs ----------

  ghost predicate SeenBy(book: Book, pid: Pid, day: int) {
    exists e :: e in book && e <= day && pid in book[e]
  }

  ghost predicate SeenFrom(book: Book, pid: Pid, day: int) {
    exists e :: e in book && day <= e && pid in book[e]
  }

  /** The portfolio's latest snapshot has no value: it closed. */
  ghost predicate Closed(book: Book, pid: Pid) {
    exists e :: e in book && pid in book[e] && book[e][pid].nav <= 0.0
             && forall later | later in book && pid in book[later] :: later <= e
  }

  ghost predicate Active(book: Book, pid: Pid, day: int) {
    SeenBy(book, pid, day) && (Closed(book, pid) ==> SeenFrom(book, pid, day))
  }

  /** Every portfolio active on the date has a snapshot on it. */
  ghost predicate Complete(book: Book, day: int)
    requires day in book
  {
    forall pid :: Active(book, pid, day) ==> pid in book[day]
  }

  // ---------- One date ----------

  function FlowOf(flows: map<Pid, real>, pid: Pid): real {
    if pid in flows then flows[pid] else 0.0
  }

  function NavMap(common: set<Pid>, snaps: Snaps): map<Pid, real>
    requires common <= snaps.Keys
  {
    map p | p in common :: snaps[p].nav
  }

  function GrownMap(common: set<Pid>, snaps: Snaps, flows: map<Pid, real>): map<Pid, real>
    requires common <= snaps.Keys
  {
    map p | p in common :: snaps[p].nav - snaps[p].flow - FlowOf(flows, p)
  }

  function AddFlows(flows: map<Pid, real>, snaps: Snaps): map<Pid, real> {
    map p | p in flows.Keys + snaps.Keys :: FlowOf(flows, p) + if p in snaps then snaps[p].flow else 0.0
  }

  ghost function NewRows(s: Scan, day: int, cur: Snaps): seq<Row> {
    var common := cur.Keys * s.prev.Keys;
    var base := SumOf(NavMap(common, s.prev));
    if s.prevDay.Some? && common != {} && base > 0.0 then
      [Row(s.prevDay.value, day, SumOf(GrownMap(common, cur, s.skippedFlow)) / base - 1.0,
           exists p :: p in common && (s.prev[p].estimated || cur[p].estimated))]
    else []
  }

  ghost function Visit(book: Book, s: Scan, day: int): Scan {
    if day !in book then s
    else if !Complete(book, day) then
      s.(skipped := s.skipped + 1, skippedFlow := AddFlows(s.skippedFlow, book[day]))
    else Scan(Some(day), book[day], map[], s.skipped, s.rows + NewRows(s, day, book[day]))
  }

  /** The dates of `book`, each once, oldest first. */
  ghost predicate Calendar(days: seq<int>, book: Book) {
    Increasing(days) && forall d :: d in days <==> d in book
  }

  predicate Increasing(days: seq<int>) {
    forall i, j | 0 <= i < j < |days| :: days[i] < days[j]
  }

  ghost function VisitAll(book: Book, days: seq<int>, s: Scan): Scan
    decreases |days|
  {
    if |days| == 0 then s else VisitAll(book, days[1..], Visit(book, s, days[0]))
  }

  lemma {:induction false} VisitSplit(book: Book, a: seq<int>, b: seq<int>, s: Scan)
    ensures VisitAll(book, a + b, s) == VisitAll(book, b, VisitAll(book, a, s))
    decreases |a|
  {
    if |a| == 0 {
      assert a + b == b;
    } else {
      assert (a + b)[1..] == a[1..] + b;
      VisitSplit(book, a[1..], b, Visit(book, s, a[0]));
    }
  }

  lemma VisitOne(book: Book, day: int, rest: seq<int>, s: Scan)
    ensures VisitAll(book, [day] + rest, s) == VisitAll(book, rest, Visit(book, s, day))
  {
    assert ([day] + rest)[1..] == rest;
  }

  // ---------- Netting a skipped date ----------

  /** Two days' snapshots that give the same rows when they open an interval. */
  ghost predicate SameValues(a: Snaps, b: Snaps) {
    a.Keys == b.Keys && forall p | p in a :: a[p].nav == b[p].nav && a[p].estimated == b[p].estimated
  }

  ghost predicate SameFlows(a: map<Pid, real>, b: map<Pid, real>) {
    forall p :: FlowOf(a, p) == FlowOf(b, p)
  }

  ghost predicate SameScan(s: Scan, t: Scan) {
    s.prevDay == t.prevDay && SameValues(s.prev, t.prev) && SameFlows(s.skippedFlow, t.skippedFlow) && s.rows == t.rows
  }

  lemma SameScanSameRows(s: Scan, t: Scan, day: int, cur: Snaps)
    requires SameScan(s, t)
    ensures NewRows(s, day, cur) == NewRows(t, day, cur)
  {
    var common := cur.Keys * s.prev.Keys;
    assert NavMap(common, s.prev) == NavMap(common, t.prev);
    assert GrownMap(common, cur, s.skippedFlow) == GrownMap(common, cur, t.skippedFlow);
  }

  /** From equivalent scans, books that agree on the rest of the calendar add the same rows. */
  lemma {:induction false} SameRest(book: Book, book': Book, days: seq<int>, s: Scan, t: Scan)
    requires forall d | d in days :: d in book && d in book' && book[d] == book'[d]
    requires forall d | d in days :: Complete(book, d) <==> Complete(book', d)
    requires SameScan(s, t)
    ensures SameScan(VisitAll(book, days, s), VisitAll(book', days, t))
    decreases |days|
  {
    if |days| > 0 {
      assert days[0] in days;
      SameScanSameRows(s, t, days[0], book[days[0]]);
      SameRest(book, book', days[1..], Visit(book, s, days[0]), Visit(book', t, days[0]));
    }
  }

  /** `snaps` with the flows of `gone` added to those portfolios' own. */
  function Netted(snaps: Snaps, gone: Snaps): Snaps {
    map p | p in snaps :: if p in gone then snaps[p].(flow := snaps[p].flow + gone[p].flow) else snaps[p]
  }

  /** No portfolio has its first or its last snapshot on `day`. */
  ghost predicate Interior(book: Book, day: int)
    requires day in book
  {
    forall p | p in book[day] :: SeenBy(book, p, day - 1) && SeenFrom(book, p, day + 1)
  }

  lemma DroppedDateKeepsActive(book: Book, book': Book, gone: int, pid: Pid, day: int)
    requires gone in book && Interior(book, gone) && book'.Keys == book.Keys - {gone}
    requires forall d | d in book' :: SameValues(book'[d], book[d])
    requires day in book'
    ensures Active(book', pid, day) <==> Active(book, pid, day)
  {
    SeenKept(book, book', gone, pid, day);
    ClosedKept(book, book', gone, pid);
  }

  lemma SeenKept(book: Book, book': Book, gone: int, pid: Pid, day: int)
    requires gone in book && Interior(book, gone) && book'.Keys == book.Keys - {gone}
    requires forall d | d in book' :: SameValues(book'[d], book[d])
    ensures SeenBy(book', pid, day) <==> SeenBy(book, pid, day)
    ensures SeenFrom(book', pid, day) <==> SeenFrom(book, pid, day)
  {
    if SeenBy(book, pid, day) {
      var e :| e in book && e <= day && pid in book[e];
      if e == gone {
        assert SeenBy(book, pid, gone - 1);
        var f :| f in book && f <= gone - 1 && pid in book[f];
        assert f in book' && f <= day && pid in book'[f];
      } else {
        assert e in book' && pid in book'[e];
      }
    }
    if SeenFrom(book, pid, day) {
      var e :| e in book && day <= e && pid in book[e];
      if e == gone {
        assert SeenFrom(book, pid, gone + 1);
        var f :| f in book && gone + 1 <= f && pid in book[f];
        assert f in book' && day <= f && pid in book'[f];
      } else {
        assert e in book' && pid in book'[e];
      }
    }
  }

  lemma ClosedKept(book: Book, book': Book, gone: int, pid: Pid)
    requires gone in book && Interior(book, gone) && book'.Keys == book.Keys - {gone}
    requires forall d | d in book' :: SameValues(book'[d], book[d])
    ensures Closed(book', pid) <==> Closed(book, pid)
  {
    if Closed(book, pid) {
      var e :| e in book && pid in book[e] && book[e][pid].nav <= 0.0
            && forall later | later in book && pid in book[later] :: later <= e;
      assert pid in book[gone] ==> SeenFrom(book, pid, gone + 1);
      assert e in book' && pid in book'[e];
    }
    if Closed(book', pid) {
      var e :| e in book' && pid in book'[e] && book'[e][pid].nav <= 0.0
            && forall later | later in book' && pid in book'[later] :: later <= e;
      forall later | later in book && pid in book[later] ensures later <= e {
        if later == gone {
          assert SeenFrom(book, pid, gone + 1);
          var f :| f in book && gone + 1 <= f && pid in book[f];
          assert f in book' && pid in book'[f];
        }
      }
    }
  }

  lemma DroppedDateKeepsComplete(book: Book, book': Book, gone: int, day: int)
    requires gone in book && Interior(book, gone) && book'.Keys == book.Keys - {gone}
    requires forall d | d in book' :: SameValues(book'[d], book[d])
    requires day in book'
    ensures Complete(book', day) <==> Complete(book, day)
  {
    forall pid ensures Active(book', pid, day) <==> Active(book, pid, day) {
      DroppedDateKeepsActive(book, book', gone, pid, day);
    }
  }

  /** The book with date `gone` deleted and its flows moved onto date `next`. */
  function Moved(book: Book, gone: int, next: int): Book
    requires gone in book && next in book
  {
    (book - {gone})[next := Netted(book[next], book[gone])]
  }

  lemma {:induction false} SkipsOnly(book: Book, days: seq<int>, s: Scan)
    requires forall d | d in days :: d in book && !Complete(book, d)
    ensures var t := VisitAll(book, days, s); t.prevDay == s.prevDay && t.prev == s.prev && t.rows == s.rows
    decreases |days|
  {
    if |days| > 0 {
      assert days[0] in days;
      SkipsOnly(book, days[1..], Visit(book, s, days[0]));
    }
  }

  /** `t` has skipped everything `s` has, and `gone` as well. */
  ghost predicate Behind(s: Scan, t: Scan, gone: Snaps) {
    && s.prevDay == t.prevDay && SameValues(s.prev, t.prev) && s.rows == t.rows
    && forall p :: FlowOf(t.skippedFlow, p) == FlowOf(s.skippedFlow, p) + if p in gone then gone[p].flow else 0.0
  }

  lemma {:induction false} BehindWhileSkipping(book: Book, book': Book, days: seq<int>, s: Scan, t: Scan, gone: Snaps)
    requires forall d | d in days :: d in book && d in book' && book[d] == book'[d]
    requires forall d | d in days :: !Complete(book, d) && !Complete(book', d)
    requires Behind(s, t, gone)
    ensures Behind(VisitAll(book', days, s), VisitAll(book, days, t), gone)
    decreases |days|
  {
    if |days| > 0 {
      assert days[0] in days;
      BehindWhileSkipping(book, book', days[1..], Visit(book', s, days[0]), Visit(book, t, days[0]), gone);
    }
  }

  lemma NettingCatchesUp(s: Scan, t: Scan, day: int, cur: Snaps, gone: Snaps)
    requires Behind(s, t, gone)
    ensures NewRows(s, day, Netted(cur, gone)) == NewRows(t, day, cur)
  {
    var common := cur.Keys * s.prev.Keys;
    var cur' := Netted(cur, gone);
    assert cur'.Keys == cur.Keys;
    assert NavMap(common, s.prev) == NavMap(common, t.prev);
    assert GrownMap(common, cur', s.skippedFlow) == GrownMap(common, cur, t.skippedFlow);
    assert forall p | p in common :: cur'[p].estimated == cur[p].estimated;
  }

  /** What moving `gone` onto `next` does to a book, as the scan sees it. */
  ghost predicate Moves(book: Book, book': Book, gone: int, next: int) {
    && gone in book && next in book && gone != next && book' == Moved(book, gone, next)
    && forall d | d in book' :: Complete(book', d) <==> Complete(book, d)
  }

  lemma MovedMoves(book: Book, gone: int, next: int)
    requires gone in book && next in book && gone != next && Interior(book, gone)
    ensures Moves(book, Moved(book, gone, next), gone, next)
  {
    var book' := Moved(book, gone, next);
    assert book'.Keys == book.Keys - {gone};
    forall d | d in book' ensures Complete(book', d) <==> Complete(book, d) {
      DroppedDateKeepsComplete(book, book', gone, d);
    }
  }

  /** From scans that agree before `gone`: one book's flows are carried to `next`, the other's wait there. */
  lemma NettingFrom(
    book: Book, book': Book, s: Scan, t: Scan, gone: int, between: seq<int>, next: int, after: seq<int>)
    requires Moves(book, book', gone, next) && SameScan(s, t) && !Complete(book, gone) && Complete(book, next)
    requires forall d | d in between || d in after :: d in book && d != gone && d != next
    requires forall d | d in between :: !Complete(book, d)
    ensures VisitAll(book', between + ([next] + after), s).rows
         == VisitAll(book, between + ([next] + after), Visit(book, t, gone)).rows
  {
    var t1 := Visit(book, t, gone);
    VisitSplit(book', between, [next] + after, s);
    VisitSplit(book, between, [next] + after, t1);
    BehindWhileSkipping(book, book', between, s, t1, book[gone]);
    var s2, t2 := VisitAll(book', between, s), VisitAll(book, between, t1);
    VisitOne(book', next, after, s2);
    VisitOne(book, next, after, t2);
    NettingCatchesUp(s2, t2, next, book[next], book[gone]);
    SameRest(book, book', after, Visit(book, t2, next), Visit(book', s2, next));
  }

  /** The same, with the calendar in pieces around the two dates. */
  lemma NettingInPieces(book: Book, before: seq<int>, gone: int, between: seq<int>, next: int, after: seq<int>)
    requires gone in book && next in book && gone != next && Interior(book, gone)
    requires !Complete(book, gone) && Complete(book, next)
    requires forall d | d in before || d in between || d in after :: d in book && d != gone && d != next
    requires forall d | d in between :: !Complete(book, d)
    ensures VisitAll(Moved(book, gone, next), before + (between + ([next] + after)), START).rows
         == VisitAll(book, before + ([gone] + (between + ([next] + after))), START).rows
  {
    var book', rest := Moved(book, gone, next), between + ([next] + after);
    MovedMoves(book, gone, next);
    VisitSplit(book', before, rest, START);
    VisitSplit(book, before, [gone] + rest, START);
    SameRest(book, book', before, START, START);
    var s, t := VisitAll(book', before, START), VisitAll(book, before, START);
    VisitOne(book, gone, rest, t);
    NettingFrom(book, book', s, t, gone, between, next, after);
  }

  lemma IncreasingWithout(a: seq<int>, x: int, b: seq<int>)
    requires Increasing(a + ([x] + b))
    ensures Increasing(a + b) && x !in a && x !in b
  {
    var all := a + ([x] + b);
    assert all[|a|] == x;
    forall k | 0 <= k < |a| ensures a[k] < x { assert all[k] == a[k]; }
    forall k | 0 <= k < |b| ensures x < b[k] { assert all[|a| + 1 + k] == b[k]; }
    forall i, j | 0 <= i < j < |a + b| ensures (a + b)[i] < (a + b)[j] {
      assert (a + b)[i] == all[if i < |a| then i else i + 1];
      assert (a + b)[j] == all[if j < |a| then j else j + 1];
    }
  }

  lemma CalendarWithout(a: seq<int>, x: int, b: seq<int>, book: Book)
    requires Calendar(a + ([x] + b), book)
    ensures Calendar(a + b, book - {x}) && x in book
    ensures forall d | d in a || d in b :: d in book && d != x
  {
    var all := a + ([x] + b);
    IncreasingWithout(a, x, b);
    assert x in all;
    forall d ensures d in a + b <==> d in book && d != x {
      assert d in all <==> d in a || d == x || d in b;
    }
  }

  /** Netting a skipped date is sound: deleting an interior skipped date and adding each of
      its flows to the same portfolio's flow on the next complete date leaves every emitted
      row unchanged. */
  lemma NettingASkippedDateIsSound(
    book: Book, before: seq<int>, gone: int, between: seq<int>, next: int, after: seq<int>)
    requires Calendar(before + ([gone] + (between + ([next] + after))), book)
    requires gone in book && !Complete(book, gone) && Interior(book, gone)
    requires next in book && Complete(book, next)
    requires forall d | d in between :: d in book && !Complete(book, d)
    ensures Calendar(before + (between + ([next] + after)), Moved(book, gone, next))
    ensures VisitAll(Moved(book, gone, next), before + (between + ([next] + after)), START).rows
         == VisitAll(book, before + ([gone] + (between + ([next] + after))), START).rows
  {
    var rest := between + ([next] + after);
    CalendarWithout(before, gone, rest, book);
    assert before + ([gone] + rest) == (before + [gone] + between) + ([next] + after);
    CalendarWithout(before + [gone] + between, next, after, book);
    assert next in rest;
    assert (book - {gone}).Keys == Moved(book, gone, next).Keys;
    forall d | d in before || d in between || d in after ensures d in book && d != gone && d != next {
      assert d in before || d in rest;
      assert d in before + [gone] + between || d in after;
    }
    NettingInPieces(book, before, gone, between, next, after);
  }

  /** A skipped interior date that no complete date follows has no bearing on the rows. */
  lemma TrailingSkippedDateIsIdle(book: Book, before: seq<int>, gone: int, after: seq<int>)
    requires Calendar(before + ([gone] + after), book)
    requires gone in book && !Complete(book, gone) && Interior(book, gone)
    requires forall d | d in after :: d in book && !Complete(book, d)
    ensures Calendar(before + after, book - {gone})
    ensures VisitAll(book - {gone}, before + after, START).rows == VisitAll(book, before + ([gone] + after), START).rows
  {
    var book' := book - {gone};
    CalendarWithout(before, gone, after, book);
    forall d | d in book' ensures Complete(book', d) <==> Complete(book, d) {
      DroppedDateKeepsComplete(book, book', gone, d);
    }
    VisitSplit(book', before, after, START);
    VisitSplit(book, before, [gone] + after, START);
    SameRest(book, book', before, START, START);
    SkipsOnly(book', after, VisitAll(book', before, START));
    SkipsOnly(book, [gone] + after, VisitAll(book, before, START));
  }
}
