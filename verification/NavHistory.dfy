/** What the revision log is for: over every run of flushes, a scope's revisions followed by
    its live row replay the valuations that scope served. */
module NavHistory {
  import opened Wrappers
  import opened NavRevisions

  /** What a flush does to one scope. */
  datatype Event = Put(values: Values) | Gone

  /** How a served valuation stopped being the current one. */
  datatype Fate = Live | Restated | Removed

  datatype Served = Served(values: Values, fate: Fate)

  datatype State = State(live: map<Scope, Values>, log: seq<Revision>)

  const EMPTY := State(map[], [])

  function Flushed(s: State, b: Batch): State
    requires WellFormed(b, s.live)
  {
    State(LiveAfter(s.live, b), Append(s.log, Updates(b.dirty, s.live) + Deletes(b.deleted, s.live)))
  }

  ghost predicate Reaches(batches: seq<Batch>, s: State) {
    if |batches| == 0 then s == EMPTY
    else
      exists t :: Reaches(batches[..|batches| - 1], t)
               && WellFormed(batches[|batches| - 1], t.live) && s == Flushed(t, batches[|batches| - 1])
  }

  // ---------- One scope's view of a batch ----------

  function DirtyValue(dirty: seq<(Scope, Values)>, scope: Scope): Option<Values> {
    if |dirty| == 0 then None
    else if dirty[|dirty| - 1].0 == scope then Some(dirty[|dirty| - 1].1)
    else DirtyValue(dirty[..|dirty| - 1], scope)
  }

  function EventOf(b: Batch, scope: Scope): Option<Event> {
    if DirtyValue(b.dirty, scope).Some? then Some(Put(DirtyValue(b.dirty, scope).value))
    else if scope in b.deleted then Some(Gone)
    else if scope in b.added then Some(Put(b.added[scope]))
    else None
  }

  /** The sequence of values committed for `scope`, removals included. */
  function Events(batches: seq<Batch>, scope: Scope): seq<Event> {
    if |batches| == 0 then []
    else
      var most, e := Events(batches[..|batches| - 1], scope), EventOf(batches[|batches| - 1], scope);
      if e.Some? then most + [e.value] else most
  }

  /** The committed sequence with materially equal neighbours collapsed: a value followed at
      once by a materially equal one is dropped, every other value stays, in order. */
  function Collapse(es: seq<Event>): seq<Served> {
    if |es| == 0 then []
    else if es[0].Gone? then Collapse(es[1..])
    else if |es| == 1 then [Served(es[0].values, Live)]
    else if es[1].Gone? then [Served(es[0].values, Removed)] + Collapse(es[1..])
    else if Same(es[0].values, es[1].values) then Collapse(es[1..])
    else [Served(es[0].values, Restated)] + Collapse(es[1..])
  }

  /** The record of `scope` in the database: its revisions in order, then its live row. */
  function Record(s: State, scope: Scope): seq<Served> {
    Superseded(Of(s.log, scope)) + if scope in s.live then [Served(s.live[scope], Live)] else []
  }

  function Superseded(revisions: seq<Revision>): (r: seq<Served>)
    ensures |r| == |revisions|
  {
    seq(|revisions|, i requires 0 <= i < |revisions| =>
      Served(revisions[i].values, if revisions[i].change.Update? then Restated else Removed))
  }

  // ---------- A batch does to each scope what its event says ----------

  lemma {:induction false} DirtyLookup(dirty: seq<(Scope, Values)>, scope: Scope)
    ensures DirtyValue(dirty, scope).Some? <==> exists i :: 0 <= i < |dirty| && dirty[i].0 == scope
  {
    if |dirty| > 0 {
      var n := |dirty| - 1;
      DirtyLookup(dirty[..n], scope);
      if DirtyValue(dirty[..n], scope).Some? {
        var i :| 0 <= i < n && dirty[..n][i].0 == scope;
        assert dirty[i].0 == scope;
      }
      if i :| 0 <= i < |dirty| && dirty[i].0 == scope && i < n {
        assert dirty[..n][i].0 == scope;
      }
    }
  }

  lemma {:induction false} LiveAfterDirtyAt(live: map<Scope, Values>, dirty: seq<(Scope, Values)>, scope: Scope)
    ensures var v := DirtyValue(dirty, scope); var after := LiveAfterDirty(live, dirty);
      if v.Some? then scope in after && after[scope] == v.value
      else (scope in after <==> scope in live) && (scope in live ==> after[scope] == live[scope])
  {
    if |dirty| > 0 {
      LiveAfterDirtyAt(live, dirty[..|dirty| - 1], scope);
    }
  }

  lemma ScopeChangedOnce(b: Batch, live: map<Scope, Values>, i: nat, j: nat)
    requires WellFormed(b, live) && i < |b.dirty| && j < |b.deleted|
    ensures b.dirty[i].0 != b.deleted[j]
  {
    assert Scopes(b)[i] == b.dirty[i].0 && Scopes(b)[|b.dirty| + j] == b.deleted[j];
  }

  lemma DirtyIsNotDeleted(b: Batch, live: map<Scope, Values>, scope: Scope)
    requires WellFormed(b, live)
    ensures DirtyValue(b.dirty, scope).Some? ==> scope !in b.deleted && scope in live
    ensures scope in b.deleted ==> scope in live
    ensures scope in b.added ==> DirtyValue(b.dirty, scope).None? && scope !in b.deleted && scope !in live
  {
    DirtyLookup(b.dirty, scope);
    if DirtyValue(b.dirty, scope).Some? {
      var i :| 0 <= i < |b.dirty| && b.dirty[i].0 == scope;
      forall j | 0 <= j < |b.deleted| ensures b.deleted[j] != scope {
        ScopeChangedOnce(b, live, i, j);
      }
    }
  }

  lemma LiveFollowsEvent(b: Batch, live: map<Scope, Values>, scope: Scope)
    requires WellFormed(b, live)
    ensures var after := LiveAfter(live, b);
      match EventOf(b, scope)
      case Some(Put(v)) => scope in after && after[scope] == v
      case Some(Gone) => scope in live && scope !in after
      case None => (scope in after <==> scope in live) && (scope in live ==> after[scope] == live[scope])
  {
    DirtyIsNotDeleted(b, live, scope);
    LiveAfterDirtyAt(live, b.dirty, scope);
  }

  lemma {:induction false} PendingOfConcat(a: seq<Pending>, b: seq<Pending>, scope: Scope)
    ensures PendingOf(a + b, scope) == PendingOf(a, scope) + PendingOf(b, scope)
  {
    if |b| == 0 {
      assert a + b == a;
    } else {
      assert (a + b)[..|a + b| - 1] == a + b[..|b| - 1];
      PendingOfConcat(a, b[..|b| - 1], scope);
    }
  }

  lemma PendingOfOne(p: Pending, scope: Scope)
    ensures PendingOf([p], scope) == if p.scope == scope then [p] else []
  {
    assert [p][..0] == [];
  }

  lemma {:induction false} UpdatesOf(dirty: seq<(Scope, Values)>, live: map<Scope, Values>, scope: Scope)
    requires forall i | 0 <= i < |dirty| :: dirty[i].0 in live
    requires forall i, j | 0 <= i < j < |dirty| :: dirty[i].0 != dirty[j].0
    ensures DirtyValue(dirty, scope).Some? ==> scope in live
    ensures PendingOf(Updates(dirty, live), scope)
         == if DirtyValue(dirty, scope).Some? && Changed(live[scope], DirtyValue(dirty, scope).value)
            then [Pending(scope, Update, live[scope])] else []
  {
    if |dirty| > 0 {
      var n := |dirty| - 1;
      var front, s, v := dirty[..n], dirty[n].0, dirty[n].1;
      UpdatesOf(front, live, scope);
      DirtyLookup(front, scope);
      var last := if Changed(live[s], v) then [Pending(s, Update, live[s])] else [];
      PendingOfConcat(Updates(front, live), last, scope);
      assert PendingOf(last, scope) == if s == scope then last else [] by {
        assert [Pending(s, Update, live[s])][..0] == [];
      }
    }
  }

  lemma {:induction false} DeletesOf(deleted: seq<Scope>, live: map<Scope, Values>, scope: Scope)
    requires forall i | 0 <= i < |deleted| :: deleted[i] in live
    requires forall i, j | 0 <= i < j < |deleted| :: deleted[i] != deleted[j]
    ensures PendingOf(Deletes(deleted, live), scope)
         == if scope in deleted then [Pending(scope, Delete, live[scope])] else []
  {
    if |deleted| > 0 {
      var n := |deleted| - 1;
      var front, s := deleted[..n], deleted[n];
      var before, one := Deletes(front, live), Pending(s, Delete, live[s]);
      DeletesOf(front, live, scope);
      PendingOfConcat(before, [one], scope);
      PendingOfOne(one, scope);
      LastIsNew(deleted, scope);
      assert Deletes(deleted, live) == before + [one];
      if scope in front {
        assert PendingOf(before, scope) + [] == PendingOf(before, scope);
      }
    }
  }

  lemma LastIsNew(deleted: seq<Scope>, scope: Scope)
    requires |deleted| > 0 && forall i, j | 0 <= i < j < |deleted| :: deleted[i] != deleted[j]
    ensures var front, last := deleted[..|deleted| - 1], deleted[|deleted| - 1];
      last !in front && (scope in deleted <==> scope in front || scope == last)
  {
    assert deleted == deleted[..|deleted| - 1] + [deleted[|deleted| - 1]];
  }

  /** The revisions a flush appends for one scope. */
  function PendingFor(b: Batch, live: map<Scope, Values>, scope: Scope): seq<Pending>
    requires WellFormed(b, live)
  {
    if scope !in live then []
    else
      match EventOf(b, scope)
      case Some(Put(v)) => if Changed(live[scope], v) then [Pending(scope, Update, live[scope])] else []
      case Some(Gone) => [Pending(scope, Delete, live[scope])]
      case None => []
  }

  lemma ScopesApart(b: Batch, live: map<Scope, Values>)
    requires WellFormed(b, live)
    ensures forall i, j | 0 <= i < j < |b.dirty| :: b.dirty[i].0 != b.dirty[j].0
    ensures forall i, j | 0 <= i < j < |b.deleted| :: b.deleted[i] != b.deleted[j]
  {
    forall i, j | 0 <= i < j < |b.dirty| ensures b.dirty[i].0 != b.dirty[j].0 {
      assert Scopes(b)[i] == b.dirty[i].0 && Scopes(b)[j] == b.dirty[j].0;
    }
    forall i, j | 0 <= i < j < |b.deleted| ensures b.deleted[i] != b.deleted[j] {
      assert Scopes(b)[|b.dirty| + i] == b.deleted[i] && Scopes(b)[|b.dirty| + j] == b.deleted[j];
    }
  }

  lemma BothAreTheEvent(
    b: Batch, live: map<Scope, Values>, scope: Scope, updates: seq<Pending>, deletes: seq<Pending>)
    requires WellFormed(b, live)
    requires DirtyValue(b.dirty, scope).Some? ==> scope in live
    requires updates == if DirtyValue(b.dirty, scope).Some? && Changed(live[scope], DirtyValue(b.dirty, scope).value)
                        then [Pending(scope, Update, live[scope])] else []
    requires scope in b.deleted ==> scope in live
    requires deletes == if scope in b.deleted then [Pending(scope, Delete, live[scope])] else []
    ensures updates + deletes == PendingFor(b, live, scope)
  {
    DirtyIsNotDeleted(b, live, scope);
    if scope in live && DirtyValue(b.dirty, scope).Some? {
      assert deletes == [] && updates + deletes == updates;
    } else {
      assert updates == [] && updates + deletes == deletes;
    }
  }

  lemma WorklistFollowsEvent(b: Batch, live: map<Scope, Values>, scope: Scope)
    requires WellFormed(b, live)
    ensures PendingOf(Updates(b.dirty, live) + Deletes(b.deleted, live), scope) == PendingFor(b, live, scope)
  {
    ScopesApart(b, live);
    UpdatesOf(b.dirty, live, scope);
    DeletesOf(b.deleted, live, scope);
    PendingOfConcat(Updates(b.dirty, live), Deletes(b.deleted, live), scope);
    BothAreTheEvent(b, live, scope, PendingOf(Updates(b.dirty, live), scope),
        PendingOf(Deletes(b.deleted, live), scope));
  }

  // ---------- Collapsing one event at a time ----------

  ghost predicate EndsLive(es: seq<Event>) {
    |es| > 0 && es[|es| - 1].Put?
  }

  /** What the last value, if still live, and the next event come to. */
  function Settle(u: Values, e: Event): seq<Served> {
    if e.Gone? then [Served(u, Removed)]
    else if Same(u, e.values) then [Served(e.values, Live)]
    else [Served(u, Restated), Served(e.values, Live)]
  }

  lemma CollapseOne(e: Event)
    ensures Collapse([e]) == if e.Put? then [Served(e.values, Live)] else []
  {
    assert [e][1..] == [];
  }

  lemma CollapseTwo(d: Event, e: Event)
    ensures Collapse([d, e]) == if d.Put? then Settle(d.values, e) else Collapse([e])
  {
    assert [d, e][1..] == [e];
    CollapseOne(e);
  }

  /** What an event leaves on record once the next one is known. */
  function First(d: Event, e: Event): seq<Served> {
    if d.Gone? then []
    else if e.Gone? then [Served(d.values, Removed)]
    else if Same(d.values, e.values) then []
    else [Served(d.values, Restated)]
  }

  lemma CollapseFirst(es: seq<Event>)
    requires |es| >= 2
    ensures Collapse(es) == First(es[0], es[1]) + Collapse(es[1..])
  {
  }

  lemma FirstStays(first: seq<Served>, rest: seq<Served>, more: seq<Served>)
    ensures first + (rest + more) == (first + rest) + more
    ensures |rest| > 0 ==> first + (rest[..|rest| - 1] + more) == (first + rest)[..|first + rest| - 1] + more
    ensures |rest| > 0 ==> (first + rest)[|first + rest| - 1] == rest[|rest| - 1]
  {
  }

  /** Appending an event settles the last value, if it was still live, and otherwise starts anew. */
  ghost predicate Appends(es: seq<Event>, e: Event) {
    && (EndsLive(es) ==>
          && |Collapse(es)| > 0 && Collapse(es)[|Collapse(es)| - 1] == Served(es[|es| - 1].values, Live)
          && Collapse(es + [e]) == Collapse(es)[..|Collapse(es)| - 1] + Settle(es[|es| - 1].values, e))
    && (!EndsLive(es) ==> Collapse(es + [e]) == Collapse(es) + if e.Put? then [Served(e.values, Live)] else [])
  }

  lemma AppendsLater(es: seq<Event>, rest: seq<Event>, e: Event)
    requires |es| >= 2 && rest == es[1..] && Appends(rest, e)
    ensures Appends(es, e)
  {
    var all, later := es + [e], rest + [e];
    assert all[1..] == later && all[0] == es[0] && all[1] == es[1];
    assert es[|es| - 1] == rest[|rest| - 1];
    CollapseFirst(es);
    CollapseFirst(all);
    FirstStays(First(es[0], es[1]), Collapse(rest),
               if EndsLive(es) then Settle(es[|es| - 1].values, e)
               else if e.Put? then [Served(e.values, Live)] else []);
  }

  lemma {:induction false} CollapseAppend(es: seq<Event>, e: Event)
    ensures Appends(es, e)
    decreases |es|
  {
    if |es| == 0 {
      assert es + [e] == [e];
      CollapseOne(e);
    } else if |es| == 1 {
      assert es + [e] == [es[0], e] && es == [es[0]];
      CollapseOne(es[0]);
      CollapseOne(e);
      CollapseTwo(es[0], e);
    } else {
      CollapseAppend(es[1..], e);
      AppendsLater(es, es[1..], e);
    }
  }

  // ---------- The record over a run ----------

  ghost predicate Faithful(s: State, es: seq<Event>, scope: Scope) {
    && Contiguous(s.log, scope)
    && (scope in s.live <==> EndsLive(es))
    && (scope in s.live ==> s.live[scope] == es[|es| - 1].values)
    && Record(s, scope) == Collapse(es)
  }

  function Ended(p: Pending): Served {
    Served(p.values, if p.change.Update? then Restated else Removed)
  }

  lemma SupersededStamp(old_: seq<Revision>, mine: seq<Pending>, n: nat)
    requires |mine| <= 1
    ensures Superseded(old_ + Stamp(mine, n)) == Superseded(old_) + if |mine| == 0 then [] else [Ended(mine[0])]
  {
  }

  lemma RevisionsGrow(s: State, b: Batch, scope: Scope)
    requires WellFormed(b, s.live) && Contiguous(s.log, scope)
    ensures var t, mine := Flushed(s, b), PendingFor(b, s.live, scope);
      && Contiguous(t.log, scope)
      && Superseded(Of(t.log, scope)) == Superseded(Of(s.log, scope)) + if |mine| == 0 then [] else [Ended(mine[0])]
  {
    var pending := Updates(b.dirty, s.live) + Deletes(b.deleted, s.live);
    WorklistFollowsEvent(b, s.live, scope);
    AppendKeepsNumbering(s.log, pending, scope);
    SupersededStamp(Of(s.log, scope), PendingOf(pending, scope), |Of(s.log, scope)|);
  }

  lemma RecordSettles(es: seq<Event>, e: Event, before: seq<Served>, u: Values)
    requires EndsLive(es) && es[|es| - 1].values == u && Collapse(es) == before + [Served(u, Live)]
    ensures Collapse(es + [e]) == before + Settle(u, e)
  {
    CollapseAppend(es, e);
    assert Collapse(es)[..|Collapse(es)| - 1] == before;
  }

  lemma RecordStays(s: State, b: Batch, scope: Scope)
    requires WellFormed(b, s.live) && Contiguous(s.log, scope) && EventOf(b, scope).None?
    ensures Record(Flushed(s, b), scope) == Record(s, scope)
  {
    LiveFollowsEvent(b, s.live, scope);
    RevisionsGrow(s, b, scope);
    DirtyIsNotDeleted(b, s.live, scope);
    assert Superseded(Of(s.log, scope)) + [] == Superseded(Of(s.log, scope));
  }

  lemma RecordSettled(s: State, b: Batch, scope: Scope)
    requires WellFormed(b, s.live) && Contiguous(s.log, scope) && EventOf(b, scope).Some? && scope in s.live
    ensures Record(Flushed(s, b), scope)
         == Superseded(Of(s.log, scope)) + Settle(s.live[scope], EventOf(b, scope).value)
  {
    LiveFollowsEvent(b, s.live, scope);
    RevisionsGrow(s, b, scope);
    DirtyIsNotDeleted(b, s.live, scope);
  }

  lemma RecordStarts(s: State, b: Batch, scope: Scope)
    requires WellFormed(b, s.live) && Contiguous(s.log, scope) && EventOf(b, scope).Some? && scope !in s.live
    ensures EventOf(b, scope).value.Put?
    ensures Record(Flushed(s, b), scope)
         == Superseded(Of(s.log, scope)) + [Served(EventOf(b, scope).value.values, Live)]
  {
    LiveFollowsEvent(b, s.live, scope);
    RevisionsGrow(s, b, scope);
    DirtyIsNotDeleted(b, s.live, scope);
    assert Superseded(Of(s.log, scope)) + [] == Superseded(Of(s.log, scope));
  }

  lemma FlushKeepsRecord(s: State, b: Batch, es: seq<Event>, scope: Scope)
    requires WellFormed(b, s.live) && Faithful(s, es, scope)
    ensures var e := EventOf(b, scope);
      Faithful(Flushed(s, b), if e.Some? then es + [e.value] else es, scope)
  {
    var e, before := EventOf(b, scope), Superseded(Of(s.log, scope));
    LiveFollowsEvent(b, s.live, scope);
    RevisionsGrow(s, b, scope);
    if e.None? {
      RecordStays(s, b, scope);
    } else if scope in s.live {
      RecordSettled(s, b, scope);
      RecordSettles(es, e.value, before, s.live[scope]);
    } else {
      RecordStarts(s, b, scope);
      CollapseAppend(es, e.value);
      assert Collapse(es) == before;
    }
  }

  lemma {:induction false} RecordHolds(batches: seq<Batch>, s: State, scope: Scope)
    requires Reaches(batches, s)
    ensures Faithful(s, Events(batches, scope), scope)
  {
    if |batches| > 0 {
      var b, most := batches[|batches| - 1], batches[..|batches| - 1];
      var t :| Reaches(most, t) && WellFormed(b, t.live) && s == Flushed(t, b);
      RecordHolds(most, t, scope);
      FlushKeepsRecord(t, b, Events(most, scope), scope);
    } else {
      assert Record(s, scope) == [];
    }
  }

  /** For every run of updates, deletes and re-inserts, a scope's revisions in order followed
      by its live row are the committed values with materially equal neighbours collapsed,
      each marked with how it ended, and the revisions are numbered exactly 1..n. */
  lemma RevisionsReplayTheHistory(batches: seq<Batch>, s: State, scope: Scope)
    requires Reaches(batches, s)
    ensures Record(s, scope) == Collapse(Events(batches, scope))
    ensures forall i | 0 <= i < |Of(s.log, scope)| :: Of(s.log, scope)[i].revision == i + 1
    ensures forall i | 0 <= i < |Of(s.log, scope)| :: Of(s.log, scope)[i].scope == scope
  {
    RecordHolds(batches, s, scope);
    OfScope(s.log, scope);
  }

  lemma {:induction false} OfScope(log: seq<Revision>, scope: Scope)
    ensures forall i | 0 <= i < |Of(log, scope)| :: Of(log, scope)[i].scope == scope
  {
    if |log| > 0 {
      OfScope(log[..|log| - 1], scope);
    }
  }

  lemma {:induction false} CollapseKeepsEverything(es: seq<Event>, i: nat)
    requires i < |es| && es[i].Put?
    ensures exists j :: 0 <= j < |Collapse(es)| && Same(es[i].values, Collapse(es)[j].values)
  {
    var rest := es[1..];
    if i > 0 {
      CollapseKeepsEverything(rest, i - 1);
      var j :| 0 <= j < |Collapse(rest)| && Same(rest[i - 1].values, Collapse(rest)[j].values);
      var shift := |Collapse(es)| - |Collapse(rest)|;
      assert Collapse(es)[j + shift] == Collapse(rest)[j];
    } else if |es| > 1 && es[1].Put? && Same(es[0].values, es[1].values) {
      CollapseKeepsEverything(rest, 0);
      var j :| 0 <= j < |Collapse(rest)| && Same(rest[0].values, Collapse(rest)[j].values);
      SameIsEquivalence(es[0].values, rest[0].values, Collapse(rest)[j].values);
      assert Collapse(es)[j] == Collapse(rest)[j];
    } else {
      SameIsEquivalence(es[0].values, es[0].values, es[0].values);
      assert Collapse(es)[0].values == es[0].values;
    }
  }

  /** No valuation a scope ever served is lost: each is, to stored precision, on a revision
      or on the live row. */
  lemma NothingServedIsLost(batches: seq<Batch>, s: State, scope: Scope, i: nat)
    requires Reaches(batches, s) && i < |Events(batches, scope)| && Events(batches, scope)[i].Put?
    ensures || (exists r :: r in s.log && r.scope == scope && Same(Events(batches, scope)[i].values, r.values))
            || (scope in s.live && Same(Events(batches, scope)[i].values, s.live[scope]))
  {
    var es := Events(batches, scope);
    RevisionsReplayTheHistory(batches, s, scope);
    CollapseKeepsEverything(es, i);
    var j :| 0 <= j < |Collapse(es)| && Same(es[i].values, Collapse(es)[j].values);
    RecordAt(s, scope, j);
  }

  lemma RecordAt(s: State, scope: Scope, j: nat)
    requires j < |Record(s, scope)|
    ensures var v := Record(s, scope)[j].values;
      (exists r :: r in s.log && r.scope == scope && r.values == v) || (scope in s.live && v == s.live[scope])
  {
    var revisions := Of(s.log, scope);
    if j < |revisions| {
      assert Record(s, scope)[j].values == revisions[j].values;
      InLog(s.log, scope, j);
    } else {
      assert Record(s, scope)[j] == Served(s.live[scope], Live);
    }
  }

  lemma {:induction false} InLog(log: seq<Revision>, scope: Scope, j: nat)
    requires j < |Of(log, scope)|
    ensures Of(log, scope)[j] in log && Of(log, scope)[j].scope == scope
  {
    var front := log[..|log| - 1];
    if j < |Of(front, scope)| {
      InLog(front, scope, j);
    }
  }

  /** Deleting a row and adding it back unchanged keeps both records: the removal between
      them is itself part of the history. */
  lemma ReinsertedValueIsKeptTwice(v: Values)
    ensures Collapse([Put(v), Gone, Put(v)]) == [Served(v, Removed), Served(v, Live)]
    ensures Collapse([Put(v), Put(v)]) == [Served(v, Live)]
  {
    assert [Put(v), Gone, Put(v)][1..] == [Gone, Put(v)] && [Gone, Put(v)][1..] == [Put(v)];
    assert Collapse([Gone, Put(v)]) == Collapse([Put(v)]) == [Served(v, Live)];
    assert [Put(v), Put(v)][1..] == [Put(v)];
  }
}
