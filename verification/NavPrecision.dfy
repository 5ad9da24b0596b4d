/** What "materially equal" means for the NAV revision log of api/db/models.py, on the numbers
    themselves, and what that makes of a restatement. */
module NavPrecision {
  import opened Wrappers
  import opened Decimals
  import opened NavRevisions
  import opened NavHistory

  // ---------- Numbers at stored precision ----------

  /** The column stores `x` as `n` units of 1e-10: the nearest such, an even one when `x` is halfway. */
  predicate StoredAs(x: real, n: int) {
    var off := x - n as real / 10000000000.0;
    && -0.00000000005 <= off <= 0.00000000005
    && (off == 0.00000000005 || off == -0.00000000005 ==> n % 2 == 0)
  }

  predicate Nearest(y: real, n: int) {
    -0.5 <= y - n as real <= 0.5 && (y - n as real == 0.5 || y - n as real == -0.5 ==> n % 2 == 0)
  }

  lemma StoredAsNearest(x: real, n: int)
    ensures StoredAs(x, n) <==> Nearest(x * 10000000000.0, n)
  {
  }

  lemma RoundIsNearest(y: real)
    ensures Nearest(y, RoundHalfEven(y))
  {
  }

  lemma NearestIsOne(y: real, m: int, n: int)
    requires Nearest(y, m) && Nearest(y, n)
    ensures m == n
  {
  }

  lemma StoredAsOne(x: real, m: int, n: int)
    ensures StoredAs(x, Quantize(x))
    ensures StoredAs(x, m) && StoredAs(x, n) ==> m == n
  {
    var y := x * 10000000000.0;
    StoredAsNearest(x, Quantize(x));
    StoredAsNearest(x, m);
    StoredAsNearest(x, n);
    RoundIsNearest(y);
    if Nearest(y, m) && Nearest(y, n) {
      NearestIsOne(y, m, n);
    }
  }

  /** Both absent, or both stored as the same number of units. */
  ghost predicate StoredAlike(a: Option<real>, b: Option<real>) {
    || (a.None? && b.None?)
    || (a.Some? && b.Some? && exists n :: StoredAs(a.value, n) && StoredAs(b.value, n))
  }

  lemma SameNumberExactly(a: Option<real>, b: Option<real>)
    ensures SameNumber(a, b) <==> StoredAlike(a, b)
  {
    if a.Some? && b.Some? {
      StoredAsOne(a.value, 0, 0);
      StoredAsOne(b.value, 0, 0);
      if n :| StoredAs(a.value, n) && StoredAs(b.value, n) {
        StoredAsOne(a.value, Quantize(a.value), n);
        StoredAsOne(b.value, Quantize(b.value), n);
      }
    }
  }

  /** Both absent, or at most one unit of 1e-10 apart. */
  predicate Within(a: Option<real>, b: Option<real>) {
    if a.None? || b.None? then a.None? && b.None?
    else -0.0000000001 <= a.value - b.value <= 0.0000000001
  }

  /** The number is a whole number of units. */
  ghost predicate Exact(a: Option<real>) {
    a.Some? ==> exists n: int :: a.value == Units(n)
  }

  function Units(n: int): real {
    n as real / 10000000000.0
  }

  /** Numbers stored alike are within a unit; whole numbers of units are stored alike only if equal. */
  lemma StoredAlikeMeans(a: Option<real>, b: Option<real>)
    ensures StoredAlike(a, b) ==> Within(a, b)
    ensures Exact(a) && Exact(b) ==> (StoredAlike(a, b) <==> a == b)
  {
    if Exact(a) && Exact(b) && a.Some? && b.Some? {
      var m: int :| a.value == Units(m);
      var n: int :| b.value == Units(n);
      StoredAsOne(a.value, m, n);
      StoredAsOne(b.value, m, n);
      assert StoredAs(a.value, m) && StoredAs(b.value, n);
      forall k | StoredAs(a.value, k) && StoredAs(b.value, k) ensures m == n {
        StoredAsOne(a.value, m, k);
        StoredAsOne(b.value, n, k);
      }
    }
  }

  // ---------- Valuations ----------

  /** All four numbers are stored alike, and the provisional mark and the composition are equal. The
      estimate stamp does not matter. */
  ghost predicate Unmoved(a: Values, b: Values) {
    && StoredAlike(a.nav, b.nav) && StoredAlike(a.costBasis, b.costBasis)
    && StoredAlike(a.externalFlow, b.externalFlow) && StoredAlike(a.spyClose, b.spyClose)
    && a.provisional == b.provisional && a.composition == b.composition
  }

  /** Two valuations are the same to the log exactly when no tracked field has moved. */
  lemma UnchangedExactly(a: Values, b: Values)
    ensures !Changed(a, b) <==> Unmoved(a, b)
  {
    SameNumberExactly(a.nav, b.nav);
    SameNumberExactly(a.costBasis, b.costBasis);
    SameNumberExactly(a.externalFlow, b.externalFlow);
    SameNumberExactly(a.spyClose, b.spyClose);
  }

  /** Field by field within a unit of 1e-10, the marks equal. */
  predicate Preserves(a: Values, b: Values) {
    && Within(a.nav, b.nav) && Within(a.costBasis, b.costBasis)
    && Within(a.externalFlow, b.externalFlow) && Within(a.spyClose, b.spyClose)
    && a.provisional == b.provisional && a.composition == b.composition
  }

  ghost predicate ExactValues(v: Values) {
    Exact(v.nav) && Exact(v.costBasis) && Exact(v.externalFlow) && Exact(v.spyClose)
  }

  /** Equal in every tracked field but the estimate stamp. */
  predicate EqualFields(a: Values, b: Values) {
    && a.nav == b.nav && a.costBasis == b.costBasis && a.externalFlow == b.externalFlow && a.spyClose == b.spyClose
    && a.provisional == b.provisional && a.composition == b.composition
  }

  lemma SamePreserves(a: Values, b: Values)
    ensures Same(a, b) ==> Preserves(a, b)
    ensures ExactValues(a) && ExactValues(b) ==> (Same(a, b) <==> EqualFields(a, b))
  {
    UnchangedExactly(a, b);
    StoredAlikeMeans(a.nav, b.nav);
    StoredAlikeMeans(a.costBasis, b.costBasis);
    StoredAlikeMeans(a.externalFlow, b.externalFlow);
    StoredAlikeMeans(a.spyClose, b.spyClose);
  }

  /** No valuation a scope ever served is lost: every number of it is, to 1e-10, on one revision or on
      the live row, with the same marks. */
  lemma EveryServedNumberIsKept(batches: seq<Batch>, s: State, scope: Scope, i: nat)
    requires Reaches(batches, s) && i < |Events(batches, scope)| && Events(batches, scope)[i].Put?
    ensures var served := Events(batches, scope)[i].values;
      || (exists r :: r in s.log && r.scope == scope && Preserves(served, r.values))
      || (scope in s.live && Preserves(served, s.live[scope]))
  {
    var served := Events(batches, scope)[i].values;
    NothingServedIsLost(batches, s, scope, i);
    if r :| r in s.log && r.scope == scope && Same(served, r.values) {
      SamePreserves(served, r.values);
    } else {
      SamePreserves(served, s.live[scope]);
    }
  }

  // ---------- A restatement ----------

  lemma AddedForScope(s: State, b: Batch, scope: Scope)
    requires Contiguous(s.log, scope) && WellFormed(b, s.live)
    ensures Of(Flushed(s, b).log, scope)
         == Of(s.log, scope) + Stamp(PendingFor(b, s.live, scope), |Of(s.log, scope)|)
  {
    WorklistFollowsEvent(b, s.live, scope);
    AppendKeepsNumbering(s.log, Updates(b.dirty, s.live) + Deletes(b.deleted, s.live), scope);
  }

  lemma StampOne(before: seq<Revision>, p: Pending)
    ensures before + Stamp([p], |before|) == before + [Revision(p.scope, |before| + 1, p.change, p.values)]
    ensures before + Stamp([], |before|) == before
  {
  }

  lemma UpdateIsPending(b: Batch, live: map<Scope, Values>, scope: Scope, now: Values)
    requires WellFormed(b, live) && DirtyValue(b.dirty, scope) == Some(now)
    ensures scope in live && scope in LiveAfter(live, b) && LiveAfter(live, b)[scope] == now
    ensures PendingFor(b, live, scope)
         == if Unmoved(live[scope], now) then [] else [Pending(scope, Update, live[scope])]
  {
    LiveFollowsEvent(b, live, scope);
    DirtyIsNotDeleted(b, live, scope);
    UnchangedExactly(live[scope], now);
  }

  lemma DeleteIsPending(b: Batch, live: map<Scope, Values>, scope: Scope)
    requires WellFormed(b, live) && scope in b.deleted
    ensures scope in live && scope !in LiveAfter(live, b)
    ensures PendingFor(b, live, scope) == [Pending(scope, Delete, live[scope])]
  {
    DirtyIsNotDeleted(b, live, scope);
    LiveFollowsEvent(b, live, scope);
  }

  lemma UpdateAdds(s: State, b: Batch, scope: Scope, now: Values)
    requires Contiguous(s.log, scope) && WellFormed(b, s.live) && DirtyValue(b.dirty, scope) == Some(now)
    ensures scope in s.live
    ensures var was, before := s.live[scope], Of(s.log, scope);
      Of(Flushed(s, b).log, scope)
      == if Unmoved(was, now) then before else before + [Revision(scope, |before| + 1, Update, was)]
  {
    UpdateIsPending(b, s.live, scope, now);
    AddedForScope(s, b, scope);
    StampOne(Of(s.log, scope), Pending(scope, Update, s.live[scope]));
  }

  lemma DeleteAdds(s: State, b: Batch, scope: Scope)
    requires Contiguous(s.log, scope) && WellFormed(b, s.live) && scope in b.deleted
    ensures scope in s.live
    ensures Of(Flushed(s, b).log, scope)
         == Of(s.log, scope) + [Revision(scope, |Of(s.log, scope)| + 1, Delete, s.live[scope])]
  {
    DeleteIsPending(b, s.live, scope);
    AddedForScope(s, b, scope);
    StampOne(Of(s.log, scope), Pending(scope, Delete, s.live[scope]));
  }

  /** In every reachable state: a flush that writes new values to a live row adds one revision, with
      the old values, exactly when a tracked field has moved, and otherwise none. */
  lemma RestatementIsRecordedExactly(batches: seq<Batch>, s: State, b: Batch, scope: Scope, now: Values)
    requires Reaches(batches, s) && WellFormed(b, s.live)
    requires DirtyValue(b.dirty, scope) == Some(now)
    ensures scope in s.live && scope in Flushed(s, b).live && Flushed(s, b).live[scope] == now
    ensures var was, before := s.live[scope], Of(s.log, scope);
      Of(Flushed(s, b).log, scope)
      == if Unmoved(was, now) then before else before + [Revision(scope, |before| + 1, Update, was)]
  {
    RecordHolds(batches, s, scope);
    UpdateIsPending(b, s.live, scope, now);
    UpdateAdds(s, b, scope, now);
  }

  /** In particular when any number has moved by more than 1e-10, or a mark has changed. */
  lemma MovedFieldIsRecorded(batches: seq<Batch>, s: State, b: Batch, scope: Scope, now: Values)
    requires Reaches(batches, s) && WellFormed(b, s.live)
    requires DirtyValue(b.dirty, scope) == Some(now) && scope in s.live && !Preserves(s.live[scope], now)
    ensures Of(Flushed(s, b).log, scope)
         == Of(s.log, scope) + [Revision(scope, |Of(s.log, scope)| + 1, Update, s.live[scope])]
  {
    SamePreserves(s.live[scope], now);
    UnchangedExactly(s.live[scope], now);
    RestatementIsRecordedExactly(batches, s, b, scope, now);
  }

  /** Deleting a live row always adds one revision, with the values it had. */
  lemma RemovalIsRecorded(batches: seq<Batch>, s: State, b: Batch, scope: Scope)
    requires Reaches(batches, s) && WellFormed(b, s.live) && scope in b.deleted
    ensures scope in s.live && scope !in Flushed(s, b).live
    ensures Of(Flushed(s, b).log, scope)
         == Of(s.log, scope) + [Revision(scope, |Of(s.log, scope)| + 1, Delete, s.live[scope])]
  {
    RecordHolds(batches, s, scope);
    DeleteIsPending(b, s.live, scope);
    DeleteAdds(s, b, scope);
  }

  /** A NAV of 100 restated to 105 stays on record as 100. */
  lemma RestatedNavStaysOnRecord()
    ensures var was := Values(Some(100.0), Some(80.0), Some(0.0), None, Some(false), None, None);
      Collapse([Put(was), Put(was.(nav := Some(105.0)))])
      == [Served(was, Restated), Served(was.(nav := Some(105.0)), Live)]
  {
    var was := Values(Some(100.0), Some(80.0), Some(0.0), None, Some(false), None, None);
    var now := was.(nav := Some(105.0));
    SamePreserves(was, now);
    assert [Put(was), Put(now)][1..] == [Put(now)];
  }
}
