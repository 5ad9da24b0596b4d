/** The append-only NAV revision log of api/db/models.py: the `before_flush` hook that keeps
    every valuation a NAV snapshot row ever served. */
module NavRevisions {
  import opened Wrappers
  import opened Decimals

  datatype Kind = Portfolio | Account

  /** What revisions are numbered within; the unique constraint allows one live row per scope. */
  datatype Scope = Scope(kind: Kind, tenant: string, portfolio: string, account: Option<string>, snapDate: int)

  /** The tracked columns. An account-grain row has no `estimatedInputs` column. */
  datatype Values = Values(
    nav: Option<real>,
    costBasis: Option<real>,
    externalFlow: Option<real>,
    spyClose: Option<real>,
    provisional: Option<bool>,
    composition: Option<string>,
    estimatedInputs: Option<seq<string>>)

  datatype Change = Update | Delete

  datatype Revision = Revision(scope: Scope, revision: nat, change: Change, values: Values)

  /** A row the hook is about to supersede. */
  datatype Pending = Pending(scope: Scope, change: Change, values: Values)

  // ---------- Equality at stored precision ----------

  /** Numeric(28, 10): the value in units of 1e-10. */
  function Quantize(x: real): int {
    RoundHalfEven(x * 10000000000.0)
  }

  predicate SameNumber(old_: Option<real>, new_: Option<real>) {
    if old_.None? || new_.None? then old_.None? && new_.None? else Quantize(old_.value) == Quantize(new_.value)
  }

  /** A different valuation in some tracked field, the estimate stamp aside. */
  predicate Changed(committed: Values, current: Values) {
    || !SameNumber(committed.nav, current.nav)
    || !SameNumber(committed.costBasis, current.costBasis)
    || !SameNumber(committed.externalFlow, current.externalFlow)
    || !SameNumber(committed.spyClose, current.spyClose)
    || committed.provisional != current.provisional
    || committed.composition != current.composition
  }

  predicate Same(a: Values, b: Values) {
    !Changed(a, b)
  }

  lemma SameIsEquivalence(a: Values, b: Values, c: Values)
    ensures Same(a, a)
    ensures Same(a, b) ==> Same(b, a)
    ensures Same(a, b) && Same(b, c) ==> Same(a, c)
  {
  }

  // ---------- What one flush writes ----------

  /** The session's changes at a flush: rows it has modified, rows it deletes, rows it adds. */
  datatype Batch = Batch(dirty: seq<(Scope, Values)>, deleted: seq<Scope>, added: map<Scope, Values>)

  function Scopes(b: Batch): seq<Scope> {
    seq(|b.dirty|, i requires 0 <= i < |b.dirty| => b.dirty[i].0) + b.deleted
  }

  /** Each row is changed once, changed rows are live, and an added row takes a free scope. */
  ghost predicate WellFormed(b: Batch, live: map<Scope, Values>) {
    && (forall i | 0 <= i < |b.dirty| :: b.dirty[i].0 in live)
    && (forall i | 0 <= i < |b.deleted| :: b.deleted[i] in live)
    && (forall i, j | 0 <= i < j < |Scopes(b)| :: Scopes(b)[i] != Scopes(b)[j])
    && live.Keys !! b.added.Keys
  }

  /** The hook's worklist: the changed rows with their committed values, then the deleted. */
  function Updates(dirty: seq<(Scope, Values)>, live: map<Scope, Values>): seq<Pending>
    requires forall i | 0 <= i < |dirty| :: dirty[i].0 in live
  {
    if |dirty| == 0 then []
    else
      var (scope, current) := dirty[|dirty| - 1];
      Updates(dirty[..|dirty| - 1], live)
        + if Changed(live[scope], current) then [Pending(scope, Update, live[scope])] else []
  }

  function Deletes(deleted: seq<Scope>, live: map<Scope, Values>): seq<Pending>
    requires forall i | 0 <= i < |deleted| :: deleted[i] in live
  {
    if |deleted| == 0 then []
    else
      var scope := deleted[|deleted| - 1];
      Deletes(deleted[..|deleted| - 1], live) + [Pending(scope, Delete, live[scope])]
  }

  function MaxRevision(log: seq<Revision>, scope: Scope): nat {
    if |log| == 0 then 0
    else
      var front, last := MaxRevision(log[..|log| - 1], scope), log[|log| - 1];
      if last.scope == scope && last.revision > front then last.revision else front
  }

  function Next(log: seq<Revision>, p: Pending): Revision {
    Revision(p.scope, MaxRevision(log, p.scope) + 1, p.change, p.values)
  }

  /** Appends the worklist, each entry numbered one above its scope's highest. */
  function Append(log: seq<Revision>, pending: seq<Pending>): (r: seq<Revision>)
    ensures |r| == |log| + |pending| && log <= r
  {
    if |pending| == 0 then log
    else
      var front, p := Append(log, pending[..|pending| - 1]), pending[|pending| - 1];
      front + [Next(front, p)]
  }

  function LiveAfterDirty(live: map<Scope, Values>, dirty: seq<(Scope, Values)>): (r: map<Scope, Values>)
    ensures r.Keys >= live.Keys
  {
    if |dirty| == 0 then live
    else LiveAfterDirty(live, dirty[..|dirty| - 1])[dirty[|dirty| - 1].0 := dirty[|dirty| - 1].1]
  }

  function LiveAfter(live: map<Scope, Values>, b: Batch): map<Scope, Values> {
    LiveAfterDirty(live, b.dirty) - (set s | s in b.deleted) + b.added
  }

  /** `nextRev` knows every scope already numbered in this flush, and its next number. */
  ghost predicate CountsOn(nextRev: map<Scope, nat>, log: seq<Revision>, added: seq<Revision>) {
    && (forall s | s in nextRev :: nextRev[s] == MaxRevision(log + added, s) + 1)
    && (forall r | r in added :: r.scope in nextRev)
  }

  lemma LookUp(nextRev: map<Scope, nat>, log: seq<Revision>, added: seq<Revision>, scope: Scope)
    requires CountsOn(nextRev, log, added) && scope !in nextRev
    ensures CountsOn(nextRev[scope := MaxRevision(log, scope) + 1], log, added)
  {
    MaxSkipsOthers(log, added, scope);
  }

  lemma NumberOne(nextRev: map<Scope, nat>, log: seq<Revision>, added: seq<Revision>, pending: seq<Pending>, i: nat)
    requires CountsOn(nextRev, log, added) && i < |pending| && pending[i].scope in nextRev
    requires log + added == Append(log, pending[..i])
    ensures var p := pending[i];
      var r := Revision(p.scope, nextRev[p.scope], p.change, p.values);
      && log + (added + [r]) == Append(log, pending[..i + 1])
      && CountsOn(nextRev[p.scope := nextRev[p.scope] + 1], log, added + [r])
  {
    var p := pending[i];
    var r := Next(log + added, p);
    AppendNext(log, pending, i, added);
    forall s | s in nextRev
      ensures nextRev[p.scope := r.revision + 1][s] == MaxRevision(log + (added + [r]), s) + 1
    {
      assert log + (added + [r]) == (log + added) + [r];
      MaxAppend(log + added, r, s);
    }
  }

  lemma AppendNext(log: seq<Revision>, pending: seq<Pending>, i: nat, added: seq<Revision>)
    requires i < |pending| && log + added == Append(log, pending[..i])
    ensures log + (added + [Next(log + added, pending[i])]) == Append(log, pending[..i + 1])
  {
    assert pending[..i + 1][..i] == pending[..i];
    assert log + (added + [Next(log + added, pending[i])]) == (log + added) + [Next(log + added, pending[i])];
  }

  class Store {
    var live: map<Scope, Values>
    var log: seq<Revision>

    constructor ()
      ensures live == map[] && log == []
    {
      live, log := map[], [];
    }

    method CollectPending(b: Batch) returns (pending: seq<Pending>)
      requires WellFormed(b, live)
      ensures pending == Updates(b.dirty, live) + Deletes(b.deleted, live)
    {
      pending := [];
      for i := 0 to |b.dirty|
        invariant pending == Updates(b.dirty[..i], live)
      {
        assert b.dirty[..i + 1][..i] == b.dirty[..i];
        var (scope, current) := b.dirty[i];
        if Changed(live[scope], current) {
          pending := pending + [Pending(scope, Update, live[scope])];
        }
      }
      assert b.dirty[..|b.dirty|] == b.dirty;
      ghost var updates := pending;
      for i := 0 to |b.deleted|
        invariant pending == updates + Deletes(b.deleted[..i], live)
      {
        assert b.deleted[..i + 1][..i] == b.deleted[..i];
        pending := pending + [Pending(b.deleted[i], Delete, live[b.deleted[i]])];
      }
      assert b.deleted[..|b.deleted|] == b.deleted;
    }

    /** Reads each scope's highest number from the table once per flush and counts on from
        there; the numbers are the ones reading the table every time would give. */
    method Number(pending: seq<Pending>) returns (added: seq<Revision>)
      ensures log + added == Append(log, pending)
    {
      added := [];
      var nextRev: map<Scope, nat> := map[];
      for i := 0 to |pending|
        invariant log + added == Append(log, pending[..i])
        invariant CountsOn(nextRev, log, added)
      {
        var p := pending[i];
        if p.scope !in nextRev {
          LookUp(nextRev, log, added, p.scope);
          nextRev := nextRev[p.scope := MaxRevision(log, p.scope) + 1];
        }
        NumberOne(nextRev, log, added, pending, i);
        added := added + [Revision(p.scope, nextRev[p.scope], p.change, p.values)];
        nextRev := nextRev[p.scope := nextRev[p.scope] + 1];
      }
      assert pending[..|pending|] == pending;
    }

    method Flush(b: Batch)
      requires WellFormed(b, live)
      modifies this
      ensures log == Append(old(log), Updates(b.dirty, old(live)) + Deletes(b.deleted, old(live)))
      ensures live == LiveAfter(old(live), b)
    {
      var pending := CollectPending(b);
      var added := Number(pending);
      log := log + added;
      live := LiveAfter(live, b);
    }
  }

  lemma MaxAppend(log: seq<Revision>, r: Revision, scope: Scope)
    ensures MaxRevision(log + [r], scope)
         == if r.scope == scope && r.revision > MaxRevision(log, scope) then r.revision else MaxRevision(log, scope)
  {
    assert (log + [r])[..|log|] == log;
  }

  lemma {:induction false} MaxSkipsOthers(log: seq<Revision>, added: seq<Revision>, scope: Scope)
    requires forall r | r in added :: r.scope != scope
    ensures MaxRevision(log + added, scope) == MaxRevision(log, scope)
  {
    if |added| > 0 {
      var n := |added| - 1;
      assert (log + added)[..|log| + n] == log + added[..n];
      MaxSkipsOthers(log, added[..n], scope);
    } else {
      assert log + added == log;
    }
  }

  // ---------- Numbering ----------

  function Of(log: seq<Revision>, scope: Scope): seq<Revision> {
    if |log| == 0 then []
    else
      var last := log[|log| - 1];
      Of(log[..|log| - 1], scope) + if last.scope == scope then [last] else []
  }

  /** A scope's revisions are numbered 1, 2, 3, ... with no gap and no repeat. */
  ghost predicate Contiguous(log: seq<Revision>, scope: Scope) {
    forall i | 0 <= i < |Of(log, scope)| :: Of(log, scope)[i].revision == i + 1
  }

  lemma {:induction false} ContiguousMax(log: seq<Revision>, scope: Scope)
    requires Contiguous(log, scope)
    ensures MaxRevision(log, scope) == |Of(log, scope)|
  {
    if |log| > 0 {
      var front, last := log[..|log| - 1], log[|log| - 1];
      assert forall i | 0 <= i < |Of(front, scope)| :: Of(front, scope)[i] == Of(log, scope)[i];
      ContiguousMax(front, scope);
      if last.scope == scope {
        assert Of(log, scope)[|Of(front, scope)|] == last;
      }
    }
  }

  function PendingOf(pending: seq<Pending>, scope: Scope): seq<Pending> {
    if |pending| == 0 then []
    else
      var last := pending[|pending| - 1];
      PendingOf(pending[..|pending| - 1], scope) + if last.scope == scope then [last] else []
  }

  /** A scope's share of the worklist, numbered on from `n`. */
  function Stamp(pending: seq<Pending>, n: nat): (r: seq<Revision>)
    ensures |r| == |pending|
    ensures forall i | 0 <= i < |r| ::
      r[i] == Revision(pending[i].scope, n + i + 1, pending[i].change, pending[i].values)
  {
    seq(|pending|, i requires 0 <= i < |pending| =>
      Revision(pending[i].scope, n + i + 1, pending[i].change, pending[i].values))
  }

  lemma StampKeepsContiguous(log: seq<Revision>, after: seq<Revision>, mine: seq<Pending>, scope: Scope)
    requires Contiguous(log, scope) && Of(after, scope) == Of(log, scope) + Stamp(mine, |Of(log, scope)|)
    ensures Contiguous(after, scope)
  {
  }

  /** Whatever one flush appends, in whatever order and however often a scope occurs in it,
      every scope's numbers stay contiguous and its entries arrive in worklist order. */
  lemma {:induction false} AppendKeepsNumbering(log: seq<Revision>, pending: seq<Pending>, scope: Scope)
    requires Contiguous(log, scope)
    ensures Contiguous(Append(log, pending), scope)
    ensures Of(Append(log, pending), scope) == Of(log, scope) + Stamp(PendingOf(pending, scope), |Of(log, scope)|)
  {
    if |pending| == 0 {
      assert Stamp([], |Of(log, scope)|) == [];
    } else {
      var n := |pending| - 1;
      AppendKeepsNumbering(log, pending[..n], scope);
      NumberNext(log, Append(log, pending[..n]), PendingOf(pending[..n], scope), pending[n], scope);
    }
    StampKeepsContiguous(log, Append(log, pending), PendingOf(pending, scope), scope);
  }

  lemma NumberNext(log: seq<Revision>, front: seq<Revision>, mine: seq<Pending>, p: Pending, scope: Scope)
    requires Contiguous(front, scope) && Of(front, scope) == Of(log, scope) + Stamp(mine, |Of(log, scope)|)
    ensures Of(front + [Next(front, p)], scope)
         == Of(log, scope) + Stamp(mine + if p.scope == scope then [p] else [], |Of(log, scope)|)
  {
    ContiguousMax(front, scope);
    OfAppend(front, Next(front, p), scope);
    if p.scope != scope {
      assert mine + [] == mine;
    }
  }

  lemma OfAppend(log: seq<Revision>, r: Revision, scope: Scope)
    ensures Of(log + [r], scope) == Of(log, scope) + if r.scope == scope then [r] else []
  {
    assert (log + [r])[..|log|] == log;
  }
}
