/** The per-session fingerprint memo of api/services/compute_cache.py.

    A session sees some view of the database, and `fingerprint` is what one aggregate query
    over that view returns. A request-scoped session answers repeated calls from a memo that
    its event hooks drop. The view is assumed to change only where those hooks fire. */
module FingerprintMemo {
  import opened Wrappers

  type Key = (string, string)

  /** What a request does with its session. `after` is the view once the event is over. */
  datatype Event<View> =
    | Ask(key: Key)
    | Flush(after: View)
    | Execute(isSelect: bool, after: View)
    | Commit(after: View)
    | Rollback(after: View)

  /** A SELECT reads; it leaves the session's view as it was. */
  ghost predicate SelectsOnlyRead<View>(events: seq<Event<View>>, view: View) {
    forall i | 0 <= i < |events| && events[i].Execute? && events[i].isSelect ::
      events[i].after == ViewAfter(events[..i], view)
  }

  ghost function ViewAfter<View>(events: seq<Event<View>>, view: View): View {
    if |events| == 0 then view
    else
      var last := events[|events| - 1];
      if last.Ask? then ViewAfter(events[..|events| - 1], view) else last.after
  }

  /** The answers a session without any memo gives: one fresh query for every `Ask`. */
  ghost function FreshAnswers<View>(
    fingerprint: (View, Key) -> string, events: seq<Event<View>>, view: View): seq<string>
  {
    if |events| == 0 then []
    else
      var front, last := events[..|events| - 1], events[|events| - 1];
      FreshAnswers(fingerprint, front, view)
        + if last.Ask? then [fingerprint(ViewAfter(front, view), last.key)] else []
  }

  /** The view is what the last event but questions left, or the one the session began with. */
  lemma {:induction false} ViewIsLastLeft<View>(events: seq<Event<View>>, view: View, i: nat)
    requires i <= |events| && forall j | i <= j < |events| :: events[j].Ask?
    ensures i == 0 ==> ViewAfter(events, view) == view
    ensures i > 0 && !events[i - 1].Ask? ==> ViewAfter(events, view) == events[i - 1].after
    decreases |events|
  {
    if |events| > i {
      var front := events[..|events| - 1];
      ViewIsLastLeft(front, view, i);
    }
  }

  function Asks<View>(events: seq<Event<View>>): nat {
    if |events| == 0 then 0 else Asks(events[..|events| - 1]) + if events[|events| - 1].Ask? then 1 else 0
  }

  /** One answer for every question, each the fingerprint of the view as it was when it was asked. */
  lemma {:induction false} EachAskIsAnswered<View>(
    fingerprint: (View, Key) -> string, events: seq<Event<View>>, view: View, i: nat)
    requires i < |events| && events[i].Ask?
    ensures |FreshAnswers(fingerprint, events, view)| == Asks(events) && Asks(events[..i]) < Asks(events)
    ensures FreshAnswers(fingerprint, events, view)[Asks(events[..i])]
         == fingerprint(ViewAfter(events[..i], view), events[i].key)
    decreases |events|
  {
    var front, last := events[..|events| - 1], events[|events| - 1];
    AnswersCount(fingerprint, front, view);
    if i < |front| {
      EachAskIsAnswered(fingerprint, front, view, i);
      assert front[..i] == events[..i];
    }
  }

  lemma {:induction false} AnswersCount<View>(
    fingerprint: (View, Key) -> string, events: seq<Event<View>>, view: View)
    ensures |FreshAnswers(fingerprint, events, view)| == Asks(events)
    decreases |events|
  {
    if |events| > 0 {
      AnswersCount(fingerprint, events[..|events| - 1], view);
    }
  }

  class Session<View> {
    const fingerprint: (View, Key) -> string
    const requestScoped: bool
    var view: View
    var memo: Option<map<Key, string>>
    /** Aggregate queries sent so far. */
    var queries: nat

    ghost predicate Valid()
      reads this
    {
      memo.Some? ==> forall k | k in memo.value :: memo.value[k] == fingerprint(view, k)
    }

    predicate Remembers(key: Key)
      reads this
    {
      requestScoped && memo.Some? && key in memo.value
    }

    constructor (fingerprint: (View, Key) -> string, requestScoped: bool, view: View)
      ensures Valid() && this.fingerprint == fingerprint && this.requestScoped == requestScoped
      ensures this.view == view && memo == None && queries == 0
    {
      this.fingerprint, this.requestScoped, this.view := fingerprint, requestScoped, view;
      memo, queries := None, 0;
    }

    /** The answer is what a query would return now, and a request-scoped session sends that
        query at most once until something drops its memo. */
    method PortfolioFingerprint(key: Key) returns (fp: string)
      requires Valid()
      modifies this`memo, this`queries
      ensures Valid()
      ensures fp == fingerprint(view, key)
      ensures queries == old(queries) + if old(Remembers(key)) then 0 else 1
      ensures memo == if requestScoped then Some(old(memo).GetOr(map[])[key := fp]) else old(memo)
    {
      var known := if requestScoped then memo else None;
      if known.Some? && key in known.value {
        assert known.value == known.value[key := known.value[key]];
        return known.value[key];
      }
      fp := fingerprint(view, key);
      queries := queries + 1;
      if requestScoped {
        memo := Some(memo.GetOr(map[])[key := fp]);
      }
    }

    method ForgetFingerprints()
      modifies this`memo
      ensures memo == None
    {
      memo := None;
    }

    /** The hook runs before the statement does. */
    method ForgetOnWrite(isSelect: bool)
      modifies this`memo
      ensures memo == if isSelect then old(memo) else None
    {
      if !isSelect {
        memo := None;
      }
    }

    /** Over every sequence of reads, flushes, statements, commits and rollbacks, the session
        answers as one that never memoizes. */
    method Serve(events: seq<Event<View>>) returns (answers: seq<string>)
      requires Valid() && SelectsOnlyRead(events, view)
      modifies this
      ensures Valid() && view == ViewAfter(events, old(view))
      ensures answers == FreshAnswers(fingerprint, events, old(view))
    {
      answers := [];
      for i := 0 to |events|
        invariant Valid()
        invariant view == ViewAfter(events[..i], old(view))
        invariant answers == FreshAnswers(fingerprint, events[..i], old(view))
      {
        assert events[..i + 1][..i] == events[..i];
        match events[i]
        case Ask(key) =>
          var fp := PortfolioFingerprint(key);
          answers := answers + [fp];
        case Execute(isSelect, after) =>
          ForgetOnWrite(isSelect);
          view := after;
        case _ =>
          view := events[i].after;
          ForgetFingerprints();
      }
      assert events[..|events|] == events;
    }
  }

  /** However many times one request asks within an unchanged view, it sends one query. */
  method AskRepeatedly<View>(session: Session<View>, key: Key, times: nat) returns (answers: seq<string>)
    requires session.Valid() && session.requestScoped
    modifies session`memo, session`queries
    ensures session.Valid() && |answers| == times
    ensures forall i | 0 <= i < times :: answers[i] == session.fingerprint(session.view, key)
    ensures session.queries <= old(session.queries) + 1
  {
    answers := [];
    while |answers| < times
      invariant session.Valid() && |answers| <= times
      invariant forall i | 0 <= i < |answers| :: answers[i] == session.fingerprint(session.view, key)
      invariant session.queries == old(session.queries)
           || (session.queries == old(session.queries) + 1 && session.Remembers(key))
    {
      var fp := session.PortfolioFingerprint(key);
      answers := answers + [fp];
    }
  }
}
