/** What a call to the single-flight cache of api/services/compute_cache.py ends with: an error only
    from its own compute, and a live entry's value whenever it finds one. */
module SingleFlightAnswers {
  import opened SingleFlight
  import opened SingleFlightRaces

  // ---------- Errors ----------

  ghost predicate HasRaised<V>(s: State<V>, w: WorkerId) {
    w in s.workers && (s.workers[w].pc == Done(Raised) || s.workers[w].pc == Release(Raised))
  }

  /** In action `j` worker `w`'s own compute raised, for the key it has at `i`, and it has not called
      again since. */
  ghost predicate RaisedAt<V>(states: seq<State<V>>, actions: seq<Action<V>>, w: WorkerId, j: nat, i: nat)
    requires Run(states, actions) && i < |states|
  {
    && j < i && actions[j] == ComputeRaises(w)
    && w in states[i].workers && states[j].workers[w].key == states[i].workers[w].key
    && forall k | j < k < i :: !(actions[k].Call? && actions[k].w == w)
  }

  /** An error comes from the worker's own compute, or was there before. */
  lemma ErrorStep<V>(s: State<V>, a: Action<V>, w: WorkerId)
    requires Enabled(s, a) && HasRaised(Apply(s, a), w) && a != ComputeRaises(w)
    ensures HasRaised(s, w) && s.workers[w].key == Apply(s, a).workers[w].key && !(a.Call? && a.w == w)
  {
  }

  /** Over every run: a call ends, or is about to end, with an error only if its own compute raised
      since it was made. */
  lemma {:induction false} ErrorsAreRaised<V>(
    states: seq<State<V>>, actions: seq<Action<V>>, i: nat, w: WorkerId) returns (j: nat)
    requires Run(states, actions) && i < |states| && HasRaised(states[i], w)
    ensures RaisedAt(states, actions, w, j, i)
    decreases i
  {
    var p := i - 1;
    if actions[p] == ComputeRaises(w) {
      j := p;
    } else {
      ErrorStep(states[p], actions[p], w);
      j := ErrorsAreRaised(states, actions, p, w);
    }
  }

  // ---------- Finding an entry ----------

  /** A call that finds a live entry returns its value at once, computing and writing nothing. */
  lemma HitIsReturned<V>(s: State<V>, w: WorkerId)
    requires w in s.workers && s.workers[w].pc.Lookup? && Hit(s, s.workers[w].key)
    ensures var key := s.workers[w].key;
      Enabled(s, Step(w))
      && Apply(s, Step(w)) == s.(workers := s.workers[w := Worker(key, Done(Returned(s.entries[key].value)))])
  {
  }

  ghost predicate AboutToReturn<V>(s: State<V>, w: WorkerId, key: Key, v: V) {
    w in s.workers && (s.workers[w] == Worker(key, Release(Returned(v))) || s.workers[w] == Worker(key, Dead))
  }

  lemma {:induction false} ReturnsUntilRelease<V>(
    states: seq<State<V>>, actions: seq<Action<V>>, w: WorkerId, i: nat, m: nat, key: Key, v: V)
    requires Run(states, actions) && i <= m <= |actions| && Idle(actions, w, i, m)
    requires AboutToReturn(states[i], w, key, v)
    ensures AboutToReturn(states[m], w, key, v)
    decreases m
  {
    if m > i {
      var p := m - 1;
      ReturnsUntilRelease(states, actions, w, i, p, key, v);
      OthersLeaveItThere(states[p], actions[p], w);
    }
  }

  /** Over every run: a worker that got the lock and finds an entry written meanwhile ends with that
      entry's value, whatever happens before it releases. */
  lemma RecheckedHitIsReturned<V>(
    states: seq<State<V>>, actions: seq<Action<V>>, w: WorkerId, i: nat, j: nat)
    requires Run(states, actions) && i < j < |actions| && actions[i] == Step(w) && actions[j] == Step(w)
    requires Idle(actions, w, i + 1, j)
    requires states[i].workers[w].pc.Recheck? && Hit(states[i], states[i].workers[w].key)
    ensures var key := states[i].workers[w].key;
      && states[j + 1].workers[w] == Worker(key, Done(Returned(states[i].entries[key].value)))
      && states[j + 1].completed == states[j].completed && states[j + 1].stored == states[j].stored
  {
    var key := states[i].workers[w].key;
    var v, n := states[i].entries[key].value, i + 1;
    assert AboutToReturn(states[n], w, key, v);
    ReturnsUntilRelease(states, actions, w, n, j, key, v);
  }

  /** A worker at its first look has called and not moved since. */
  ghost predicate JustCalled<V>(s: State<V>, w: WorkerId, key: Key) {
    w in s.workers && (s.workers[w] == Worker(key, Lookup) || s.workers[w] == Worker(key, Dead))
  }

  lemma {:induction false} LooksUntilStep<V>(
    states: seq<State<V>>, actions: seq<Action<V>>, w: WorkerId, i: nat, m: nat, key: Key)
    requires Run(states, actions) && i <= m <= |actions| && Idle(actions, w, i, m) && JustCalled(states[i], w, key)
    ensures JustCalled(states[m], w, key)
    decreases m
  {
    if m > i {
      var p := m - 1;
      LooksUntilStep(states, actions, w, i, p, key);
      OthersLeaveItThere(states[p], actions[p], w);
    }
  }

  /** Over every run: a call whose first look comes while its key has a live entry returns that
      entry's value. */
  lemma CallOfLiveEntryReturnsIt<V>(
    states: seq<State<V>>, actions: seq<Action<V>>, w: WorkerId, key: Key, i: nat, j: nat)
    requires Run(states, actions) && i < j < |actions| && actions[i] == Call(w, key) && actions[j] == Step(w)
    requires Idle(actions, w, i + 1, j) && Hit(states[j], key)
    ensures states[j + 1].workers[w] == Worker(key, Done(Returned(states[j].entries[key].value)))
    ensures states[j + 1].completed == states[j].completed && states[j + 1].locks == states[j].locks
  {
    var n := i + 1;
    assert JustCalled(states[n], w, key);
    LooksUntilStep(states, actions, w, n, j, key);
    HitIsReturned(states[j], w);
  }

  // ---------- Runs in which nothing raises ----------

  ghost predicate NothingRaises<V>(actions: seq<Action<V>>) {
    forall k | 0 <= k < |actions| :: !actions[k].ComputeRaises?
  }

  lemma FinishedCallsReturn<V>(states: seq<State<V>>, actions: seq<Action<V>>, i: nat, w: WorkerId)
    requires Run(states, actions) && NothingRaises(actions) && i < |states|
    requires w in states[i].workers && states[i].workers[w].pc.Done?
    ensures states[i].workers[w].pc.result.Returned?
  {
    if states[i].workers[w].pc.result.Raised? {
      var j := ErrorsAreRaised(states, actions, i, w);
      assert false;
    }
  }

  /** When nothing raises and the run is timely, every call of a key that ends returns, and all return
      the one value. */
  lemma EveryCallReturnsTheValue<V(!new)>(
    states: seq<State<V>>, actions: seq<Action<V>>, i: nat, j: nat, w: WorkerId, x: WorkerId)
    requires TimelyRun(states, actions) && NothingRaises(actions) && i <= j < |states|
    requires w in states[i].workers && states[i].workers[w].pc.Done?
    requires x in states[j].workers && states[j].workers[x].pc.Done?
    requires states[i].workers[w].key == states[j].workers[x].key
    ensures states[i].workers[w].pc.result.Returned? && states[i].workers[w].pc.result == states[j].workers[x].pc.result
  {
    FinishedCallsReturn(states, actions, i, w);
    FinishedCallsReturn(states, actions, j, x);
    CallersAgree(states, actions, i, j, w, x);
  }

  // ---------- How long things last ----------

  /** A stored value is served for five minutes and no longer. */
  lemma StoredEntryLivesFiveMinutes<V>(s: State<V>, w: WorkerId, v: V, seconds: real)
    requires w in s.workers && s.workers[w].pc == Store(v) && seconds >= 0.0
    ensures Enabled(s, Step(w)) && Enabled(Apply(s, Step(w)), Tick(seconds))
    ensures var key, later := s.workers[w].key, Apply(Apply(s, Step(w)), Tick(seconds));
      && key in later.entries && later.entries[key].value == v
      && (Hit(later, key) <==> seconds < 300.0)
  {
  }

  /** A lock taken or touched is held for two minutes and no longer, unless it is released. */
  lemma LockLivesTwoMinutes<V>(s: State<V>, w: WorkerId, seconds: real)
    requires w in s.workers && Enabled(s, Step(w)) && seconds >= 0.0
    requires var pc := s.workers[w].pc; pc.Acquire? || (pc.Touch? && Locked(s, s.workers[w].key))
    ensures Enabled(Apply(s, Step(w)), Tick(seconds))
    ensures Locked(Apply(Apply(s, Step(w)), Tick(seconds)), s.workers[w].key) <==> seconds < 120.0
  {
  }

  /** A worker inside a call can die wherever it stands, and leaves lock and entries as they are. */
  lemma DeathLeavesTheLock<V>(s: State<V>, w: WorkerId)
    requires w in s.workers && !s.workers[w].pc.Done? && !s.workers[w].pc.Dead?
    ensures Enabled(s, Die(w))
    ensures var t := Apply(s, Die(w));
      && t.workers == s.workers[w := Worker(s.workers[w].key, Dead)]
      && t.locks == s.locks && t.entries == s.entries && t.now == s.now
      && t.completed == s.completed && t.stored == s.stored
      && t.lost == if s.workers[w].pc.Store? then s.lost + [(s.workers[w].key, s.workers[w].pc.computed)] else s.lost
  {
  }

  /** No call is stuck but at a live lock: otherwise its worker can go on, compute or start anew. */
  lemma OnlyLocksHoldUp<V>(s: State<V>, w: WorkerId, key: Key, v: V)
    requires w in s.workers
    ensures var pc := s.workers[w].pc;
      && (pc.Compute? ==> Enabled(s, ComputeReturns(w, v)) && Enabled(s, ComputeRaises(w)))
      && (pc.Done? ==> Enabled(s, Call(w, key)))
      && (Enabled(s, Step(w))
          <==> !pc.Compute? && !pc.Done? && !pc.Dead? && !(pc.Acquire? && Locked(s, s.workers[w].key)))
  {
  }
}
