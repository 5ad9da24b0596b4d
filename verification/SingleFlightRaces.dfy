/** Where the single-flight cache's promises end: failed computes, locks that run out, and the
    orphan check racing with a new holder. */
module SingleFlightRaces {
  import opened Wrappers
  import opened SingleFlight

  // ---------- A compute that raises ----------

  /** Worker `w` takes no step of its own in the actions from `i` up to `j`. */
  ghost predicate Idle<V>(actions: seq<Action<V>>, w: WorkerId, i: nat, j: nat) {
    i <= j <= |actions| && forall k | i <= k < j :: actions[k] != Step(w)
  }

  /** A worker that is neither computing nor done moves only by its own step or its death. */
  lemma OthersLeaveItThere<V>(s: State<V>, a: Action<V>, w: WorkerId)
    requires Enabled(s, a) && w in s.workers && !s.workers[w].pc.Compute? && !s.workers[w].pc.Done? && a != Step(w)
    ensures w in Apply(s, a).workers
    ensures Apply(s, a).workers[w] == if a == Die(w) then s.workers[w].(pc := Dead) else s.workers[w]
  {
  }

  ghost predicate RaisedOrDead<V>(s: State<V>, w: WorkerId, key: Key) {
    w in s.workers && s.workers[w].key == key && (s.workers[w].pc == Release(Raised) || s.workers[w].pc.Dead?)
  }

  lemma {:induction false} RaisedUntilRelease<V>(
    states: seq<State<V>>, actions: seq<Action<V>>, w: WorkerId, i: nat, m: nat)
    requires Run(states, actions) && i < m <= |actions| && Idle(actions, w, i + 1, m)
    requires actions[i] == ComputeRaises(w)
    ensures RaisedOrDead(states[m], w, states[i].workers[w].key)
    decreases m
  {
    if m > i + 1 {
      RaisedUntilRelease(states, actions, w, i, m - 1);
      OthersLeaveItThere(states[m - 1], actions[m - 1], w);
    }
  }

  /** Whatever happens between a failed compute and its release, the worker writes nothing: its
      only own step is the release, which deletes the lock row and ends the call with the error. */
  lemma FailedComputeWritesNothing<V>(
    states: seq<State<V>>, actions: seq<Action<V>>, w: WorkerId, i: nat, j: nat)
    requires Run(states, actions) && i < j < |actions| && Idle(actions, w, i + 1, j)
    requires actions[i] == ComputeRaises(w) && actions[j] == Step(w)
    ensures var key := states[i].workers[w].key;
      && (forall m | i < m <= j :: w in states[m].workers && states[m].workers[w] == Worker(key, Release(Raised)))
      && states[j + 1].entries == states[j].entries && states[j + 1].stored == states[j].stored
      && states[j + 1].locks == states[j].locks - {key}
      && states[j + 1].workers[w] == Worker(key, Done(Raised))
  {
    var key := states[i].workers[w].key;
    RaisedUntilRelease(states, actions, w, i, j);
    forall m | i < m <= j ensures w in states[m].workers && states[m].workers[w] == Worker(key, Release(Raised)) {
      RaisedUntilRelease(states, actions, w, i, m);
      if states[m].workers[w].pc.Dead? {
        DeadStaysDead(states, actions, w, m, j);
      }
    }
  }

  ghost predicate DeadIn<V>(s: State<V>, w: WorkerId) {
    w in s.workers && s.workers[w].pc.Dead?
  }

  lemma DeadNext<V>(states: seq<State<V>>, actions: seq<Action<V>>, w: WorkerId, i: nat)
    requires Run(states, actions) && i < |actions| && DeadIn(states[i], w)
    ensures DeadIn(states[i + 1], w)
  {
    OthersLeaveItThere(states[i], actions[i], w);
  }

  lemma {:induction false} DeadStaysDead<V>(
    states: seq<State<V>>, actions: seq<Action<V>>, w: WorkerId, m: nat, n: nat)
    requires Run(states, actions) && m <= n < |states| && DeadIn(states[m], w)
    ensures DeadIn(states[n], w)
    decreases n
  {
    if m < n {
      var p := n - 1;
      DeadStaysDead(states, actions, w, m, p);
      DeadNext(states, actions, w, p);
    }
  }

  lemma {:induction false} KeyStaysEmpty<V(!new)>(
    states: seq<State<V>>, actions: seq<Action<V>>, w: WorkerId, i: nat, j: nat, m: nat)
    requires TimelyRun(states, actions) && i < m <= j < |actions| && Idle(actions, w, i + 1, j)
    requires actions[i] == ComputeRaises(w) && actions[j] == Step(w)
    ensures states[i].workers[w].key !in states[m].entries
    decreases m
  {
    FailedComputeWritesNothing(states, actions, w, i, j);
    if m == i + 1 {
      TimelyInvariant(states, actions, i);
      assert Faithful(states[i], w);
    } else {
      KeyStaysEmpty(states, actions, w, i, j, m - 1);
      TimelyInvariant(states, actions, m - 1);
      OnlyTheHolderWrites(states[m - 1], actions[m - 1], w);
    }
  }

  lemma OnlyTheHolderWrites<V(!new)>(s: State<V>, a: Action<V>, w: WorkerId)
    requires Enabled(s, a) && Exclusive(s) && a != Step(w)
    requires w in s.workers && Critical(s.workers[w].pc) && s.workers[w].key !in s.entries
    ensures s.workers[w].key !in Apply(s, a).entries
  {
    if a.Step? && s.workers[a.w].pc.Store? {
      assert Apart(s, w, a.w);
    }
  }

  /** In a timely run, with anything in between, the release of a failed compute leaves its key
      without an entry and without a lock: any worker waiting at the lock can take it. */
  lemma FailedComputeFreesTheKey<V(!new)>(
    states: seq<State<V>>, actions: seq<Action<V>>, w: WorkerId, i: nat, j: nat)
    requires TimelyRun(states, actions) && i < j < |actions| && Idle(actions, w, i + 1, j)
    requires actions[i] == ComputeRaises(w) && actions[j] == Step(w)
    ensures var key, t := states[i].workers[w].key, states[j + 1];
      && key !in t.entries && key !in t.locks && t.workers[w].pc == Done(Raised)
      && forall x | x in t.workers && t.workers[x] == Worker(key, Acquire) :: Enabled(t, Step(x))
  {
    FailedComputeWritesNothing(states, actions, w, i, j);
    KeyStaysEmpty(states, actions, w, i, j, j);
  }

  // ---------- When a key is computed more than once ----------

  /** Two workers computing one key at once means that an earlier step was not timely: a lock or
      an entry ran out under its holder, or was evicted. */
  lemma TwoComputersMeanUntimely<V(!new)>(
    states: seq<State<V>>, actions: seq<Action<V>>, i: nat, w: WorkerId, x: WorkerId)
    requires Run(states, actions) && i < |states| && w != x
    requires w in states[i].workers && x in states[i].workers && states[i].workers[w].key == states[i].workers[x].key
    requires states[i].workers[w].pc.Compute? && states[i].workers[x].pc.Compute?
    ensures exists k :: 0 <= k < i && !Timely(states[k], actions[k])
  {
    if forall k | 0 <= k < i :: Timely(states[k], actions[k]) {
      TimelyWorkersAreApart(states[..i + 1], actions[..i], w, x);
    }
  }

  lemma TimelyWorkersAreApart<V(!new)>(states: seq<State<V>>, actions: seq<Action<V>>, w: WorkerId, x: WorkerId)
    requires TimelyRun(states, actions)
    requires w in states[|actions|].workers && x in states[|actions|].workers
    ensures Apart(states[|actions|], w, x)
  {
    TimelyInvariant(states, actions, |actions|);
  }

  /** What `w` computing and `x` waiting for the same lock come to once `seconds` have passed:
      `x` gets the lock exactly when the row has run out, and then computes as well exactly when
      the key still has no entry. */
  lemma OutlivedLockComputesTwice<V>(s: State<V>, w: WorkerId, x: WorkerId, seconds: real)
    requires w in s.workers && x in s.workers && w != x && seconds >= 0.0
    requires s.workers[w].pc.Compute? && s.workers[x] == Worker(s.workers[w].key, Acquire)
    ensures var key, t := s.workers[w].key, Apply(s, Tick(seconds));
      && (Enabled(t, Step(x)) <==> !Locked(t, key))
      && (!Locked(t, key) ==>
            var u := Apply(t, Step(x));
            && Enabled(u, Step(x))
            && (Apply(u, Step(x)).workers[x].pc.Compute? <==> !Hit(t, key))
            && Apply(u, Step(x)).workers[w] == s.workers[w])
  {
  }

  /** In any run, one lock lifetime is enough: a second worker that waits that long computes the
      same key while the first still does, unless a value has come in meanwhile. */
  lemma WaitingWorkerComputesToo<V(!new)>(
    states: seq<State<V>>, actions: seq<Action<V>>, i: nat, w: WorkerId, x: WorkerId)
    returns (s: State<V>)
    requires Run(states, actions) && i < |states| && w != x
    requires w in states[i].workers && x in states[i].workers && states[i].workers[w].pc.Compute?
    requires states[i].workers[x] == Worker(states[i].workers[w].key, Acquire)
    requires !Hit(states[i], states[i].workers[w].key)
    ensures Reachable(s) && w in s.workers && s.workers[w] == states[i].workers[w]
    ensures x in s.workers && s.workers[x] == states[i].workers[w]
  {
    WaitIsBounded(states, actions, i, x);
    PrefixIsReachable(states, actions, i);
    var later := ReachableNext(states[i], Tick(LOCK_EXPIRE_S));
    s := TakesAndComputes(later, w, x);
  }

  /** A worker at a lock that has run out takes it and computes beside the other. */
  lemma TakesAndComputes<V(!new)>(t: State<V>, w: WorkerId, x: WorkerId) returns (s: State<V>)
    requires Reachable(t) && w in t.workers && x in t.workers && w != x
    requires t.workers[x] == Worker(t.workers[w].key, Acquire)
    requires !Locked(t, t.workers[w].key) && !Hit(t, t.workers[w].key)
    ensures Reachable(s) && w in s.workers && s.workers[w] == t.workers[w]
    ensures x in s.workers && s.workers[x] == Worker(t.workers[w].key, Compute)
  {
    s := ReachableNext(t, Step(x));
    s := ReachableNext(s, Step(x));
  }

  /** `s` with worker `x` standing at `pc`. */
  function At<V>(s: State<V>, x: WorkerId, key: Key, pc: Pc<V>): State<V> {
    s.(workers := s.workers[x := Worker(key, pc)])
  }

  function TakenBy<V>(s: State<V>, key: Key): State<V> {
    s.(locks := s.locks[key := Some(s.now + LOCK_EXPIRE_S)])
  }

  lemma Misses<V>(s: State<V>, x: WorkerId, key: Key)
    requires !Hit(s, key)
    ensures var t := At(s, x, key, Lookup); Enabled(t, Step(x)) && Apply(t, Step(x)) == At(s, x, key, CheckOrphan)
    ensures var t := At(s, x, key, Recheck); Enabled(t, Step(x)) && Apply(t, Step(x)) == At(s, x, key, Compute)
  {
  }

  lemma FindsNoLock<V>(s: State<V>, x: WorkerId, key: Key)
    requires !Locked(s, key)
    ensures var t := At(s, x, key, CheckOrphan); Enabled(t, Step(x)) && Apply(t, Step(x)) == At(s, x, key, Acquire)
    ensures var t := At(s, x, key, Acquire);
      Enabled(t, Step(x)) && Apply(t, Step(x)) == At(TakenBy(s, key), x, key, Recheck)
  {
  }

  lemma MissReachesTheLock<V(!new)>(s: State<V>, x: WorkerId, key: Key) returns (t: State<V>)
    requires Reachable(At(s, x, key, Lookup)) && !Hit(s, key) && !Locked(s, key)
    ensures Reachable(t) && t == At(s, x, key, Acquire)
  {
    Misses(s, x, key);
    FindsNoLock(s, x, key);
    t := ReachableNext(At(s, x, key, Lookup), Step(x));
    t := ReachableNext(t, Step(x));
  }

  lemma LookupIsComputed<V(!new)>(s: State<V>, x: WorkerId, key: Key) returns (t: State<V>)
    requires Reachable(At(s, x, key, Lookup)) && !Hit(s, key) && !Locked(s, key)
    ensures Reachable(t) && t == At(TakenBy(s, key), x, key, Compute)
  {
    t := MissReachesTheLock(s, x, key);
    FindsNoLock(s, x, key);
    t := ReachableNext(t, Step(x));
    Misses(TakenBy(s, key), x, key);
    t := ReachableNext(t, Step(x));
  }

  /** A key without a live entry or lock is computed by the next caller, however often it has
      been computed before: an entry's own expiry ends single-flight without any lock running out. */
  lemma MissIsComputed<V(!new)>(s: State<V>, x: WorkerId, key: Key) returns (t: State<V>)
    requires Reachable(s) && x !in s.workers && !Hit(s, key) && !Locked(s, key)
    ensures Reachable(t)
    ensures t == s.(workers := s.workers[x := Worker(key, Compute)],
                    locks := s.locks[key := Some(s.now + LOCK_EXPIRE_S)])
  {
    t := ReachableNext(s, Call(x, key));
    t := LookupIsComputed(s, x, key);
  }

  // ---------- The conditions are needed ----------

  ghost predicate Reachable<V(!new)>(s: State<V>) {
    exists states: seq<State<V>>, actions: seq<Action<V>> :: Run(states, actions) && states[|actions|] == s
  }

  lemma PrefixIsReachable<V(!new)>(states: seq<State<V>>, actions: seq<Action<V>>, i: nat)
    requires Run(states, actions) && i < |states|
    ensures Reachable(states[i])
  {
    assert Run(states[..i + 1], actions[..i]);
  }

  /** A store without entries, before the first call. */
  function Fresh<V>(locks: map<Key, Option<real>>): State<V> {
    State(0.0, map[], locks, map[], [], [], [])
  }

  lemma FreshIsReachable<V(!new)>(locks: map<Key, Option<real>>)
    requires forall k | k in locks && locks[k].Some? :: locks[k].value <= LOCK_EXPIRE_S
    ensures Reachable(Fresh<V>(locks))
  {
    var s: State<V> := Fresh(locks);
    assert Initial(s);
    assert Run([s], []);
  }

  lemma ReachableNext<V(!new)>(s: State<V>, a: Action<V>) returns (t: State<V>)
    requires Reachable(s) && Enabled(s, a)
    ensures t == Apply(s, a) && Reachable(t)
  {
    t := Apply(s, a);
    var states: seq<State<V>>, actions: seq<Action<V>> :| Run(states, actions) && states[|actions|] == s;
    assert Run(states + [t], actions + [a]);
  }

  lemma TwoWorkersMeet(key: Key) returns (s: State<int>)
    ensures Reachable(s) && s.now == 0.0 && s.entries == map[] && s.locks == map[]
    ensures s.workers == map[0 := Worker(key, Lookup), 1 := Worker(key, Lookup)]
    ensures s.completed == [] && s.stored == [] && s.lost == []
  {
    s := Fresh(map[]);
    FreshIsReachable<int>(map[]);
    s := ReachableNext(s, Call(0, key));
    s := ReachableNext(s, Call(1, key));
  }

  /** Two workers meet at an empty key; the first takes the lock and starts to compute. */
  lemma OneComputesOneWaits(key: Key) returns (s: State<int>)
    ensures Reachable(s) && s.now == 0.0 && s.entries == map[] && s.locks == map[key := Some(LOCK_EXPIRE_S)]
    ensures s.workers == map[0 := Worker(key, Compute), 1 := Worker(key, Lookup)]
    ensures s.completed == [] && s.stored == [] && s.lost == []
  {
    s := TwoWorkersMeet(key);
    assert At(s, 0, key, Lookup) == s;
    s := LookupIsComputed(s, 0, key);
  }

  lemma LockRunsOut(key: Key, s0: State<int>) returns (s: State<int>)
    requires Reachable(s0) && s0.now == 0.0 && s0.entries == map[] && s0.locks == map[key := Some(LOCK_EXPIRE_S)]
    requires s0.workers == map[0 := Worker(key, Compute), 1 := Worker(key, Lookup)]
    requires s0.completed == [] && s0.lost == []
    ensures Reachable(s) && s.entries == map[] && !Locked(s, key)
    ensures s.workers == map[0 := Worker(key, Compute), 1 := Worker(key, Acquire)] && s.completed == [] && s.lost == []
  {
    s := ReachableNext(s0, Tick(LOCK_EXPIRE_S));
    s := ReachableNext(s, Step(1));
    s := ReachableNext(s, Step(1));
  }

  lemma BothCompute(key: Key, s0: State<int>) returns (s: State<int>)
    requires Reachable(s0) && s0.now == 0.0 && s0.entries == map[] && s0.locks == map[key := Some(LOCK_EXPIRE_S)]
    requires s0.workers == map[0 := Worker(key, Compute), 1 := Worker(key, Lookup)]
    requires s0.completed == [] && s0.lost == []
    ensures Reachable(s) && s.workers == map[0 := Worker(key, Compute), 1 := Worker(key, Compute)]
    ensures s.completed == [] && s.lost == []
  {
    s := LockRunsOut(key, s0);
    s := ReachableNext(s, Step(1));
    s := ReachableNext(s, Step(1));
  }

  lemma Computes(key: Key, w: WorkerId, v: int, s0: State<int>) returns (s: State<int>)
    requires Reachable(s0) && w in s0.workers && s0.workers[w] == Worker(key, Compute) && s0.lost == []
    ensures Reachable(s) && s.workers == s0.workers[w := Worker(key, Store(v))]
    ensures s.completed == s0.completed + [(key, v)] && s.lost == []
  {
    s := ReachableNext(s0, ComputeReturns(w, v));
  }

  lemma Finishes(key: Key, w: WorkerId, v: int, s0: State<int>) returns (s: State<int>)
    requires Reachable(s0) && w in s0.workers && s0.workers[w] == Worker(key, Compute) && s0.lost == []
    ensures Reachable(s) && s.workers == s0.workers[w := Worker(key, Done(Returned(v)))]
    ensures s.completed == s0.completed + [(key, v)] && s.lost == []
  {
    s := Computes(key, w, v, s0);
    s := ReachableNext(s, Step(w));
    s := ReachableNext(s, Step(w));
  }

  /** When a compute outlives its lock, `cached` does not compute once: a second worker takes
      the expired lock, and the two callers return different values. */
  lemma SlowComputeRunsTwice(key: Key) returns (s: State<int>)
    ensures Reachable(s) && s.completed == [(key, 7), (key, 8)] && s.lost == []
    ensures s.workers == map[0 := Worker(key, Done(Returned(7))), 1 := Worker(key, Done(Returned(8)))]
  {
    s := OneComputesOneWaits(key);
    s := BothCompute(key, s);
    s := Finishes(key, 0, 7, s);
    s := Finishes(key, 1, 8, s);
  }

  lemma Stores<V>(s: State<V>, x: WorkerId, key: Key, v: V)
    requires x in s.workers && s.workers[x] == Worker(key, Store(v))
    ensures Enabled(s, Step(x))
    ensures Apply(s, Step(x)) == s.(
      workers := s.workers[x := Worker(key, Release(Returned(v)))],
      entries := s.entries[key := Entry(v, s.now + TTL_S)], stored := s.stored + [(key, v)])
  {
  }

  lemma Releases<V>(s: State<V>, x: WorkerId, key: Key, outcome: Outcome<V>)
    requires x in s.workers && s.workers[x] == Worker(key, Release(outcome))
    ensures Enabled(s, Step(x))
    ensures Apply(s, Step(x)) == s.(workers := s.workers[x := Worker(key, Done(outcome))], locks := s.locks - {key})
  {
  }

  lemma ComputesAndStores(key: Key, x: WorkerId, v: int, s0: State<int>) returns (s: State<int>)
    requires Reachable(s0) && x !in s0.workers && !Hit(s0, key) && !Locked(s0, key)
    ensures Reachable(s) && s.now == s0.now && s.locks == s0.locks[key := Some(s0.now + LOCK_EXPIRE_S)] - {key}
    ensures s.completed == s0.completed + [(key, v)] && s.entries == s0.entries[key := Entry(v, s0.now + TTL_S)]
    ensures s.workers == s0.workers[x := Worker(key, Done(Returned(v)))]
  {
    s := MissIsComputed(s0, x, key);
    s := WritesAndLeaves(s, x, key, v);
  }

  lemma WritesAndLeaves(s0: State<int>, x: WorkerId, key: Key, v: int) returns (s: State<int>)
    requires Reachable(s0) && x in s0.workers && s0.workers[x] == Worker(key, Compute)
    ensures Reachable(s) && s.now == s0.now && s.locks == s0.locks - {key}
    ensures s.completed == s0.completed + [(key, v)] && s.entries == s0.entries[key := Entry(v, s0.now + TTL_S)]
    ensures s.workers == s0.workers[x := Worker(key, Done(Returned(v)))]
  {
    s := ReachableNext(s0, ComputeReturns(x, v));
    Stores(s, x, key, v);
    s := ReachableNext(s, Step(x));
    Releases(s, x, key, Returned(v));
    s := ReachableNext(s, Step(x));
  }

  /** One worker computes, stores and leaves; the entry expires; the next worker computes again.
      No lock has run out: there is none while the clock moves. */
  lemma ExpiredEntryIsComputedAgain(key: Key) returns (s: State<int>)
    ensures Reachable(s) && s.completed == [(key, 7), (key, 8)]
    ensures s.workers == map[0 := Worker(key, Done(Returned(7))), 1 := Worker(key, Done(Returned(8)))]
  {
    s := Fresh(map[]);
    FreshIsReachable<int>(map[]);
    s := ComputesAndStores(key, 0, 7, s);
    assert s.locks == map[];
    s := ReachableNext(s, Tick(TTL_S));
    s := ComputesAndStores(key, 1, 8, s);
  }

  // ---------- The orphan check and a live holder ----------

  /** The action writes a fresh expiry into the lock row of `key`. */
  predicate Puts<V>(s: State<V>, a: Action<V>, key: Key)
    requires Enabled(s, a)
  {
    && a.Step? && s.workers[a.w].key == key
    && (s.workers[a.w].pc.Acquire? || (s.workers[a.w].pc.Touch? && Locked(s, key)))
  }

  /** The action deletes the lock row of `key`. */
  predicate Drops<V>(s: State<V>, a: Action<V>, key: Key)
    requires Enabled(s, a)
  {
    a == EvictLock(key) || (a.Step? && s.workers[a.w].key == key && s.workers[a.w].pc.Release?)
  }

  /** Action `k`, in `[i, j)`, is the last to put an expiry on `key` before state `j`, and no
      later action drops the row. */
  ghost predicate LastPut<V>(states: seq<State<V>>, actions: seq<Action<V>>, key: Key, i: nat, k: nat, j: nat)
    requires Run(states, actions) && j < |states|
  {
    && i <= k < j && Puts(states[k], actions[k], key)
    && forall m | k < m < j :: !Puts(states[m], actions[m], key) && !Drops(states[m], actions[m], key)
  }

  /** The row of `key` carries an expiry that has not come. */
  predicate Expiring<V>(s: State<V>, key: Key) {
    key in s.locks && s.locks[key].Some? && s.now < s.locks[key].value
  }

  lemma RowAfter<V>(s: State<V>, a: Action<V>, key: Key)
    requires Enabled(s, a)
    ensures var t := Apply(s, a);
      if Puts(s, a, key) then key in t.locks && t.locks[key] == Some(s.now + LOCK_EXPIRE_S)
      else if Drops(s, a, key) then key !in t.locks
      else (key in t.locks <==> key in s.locks) && (key in s.locks ==> t.locks[key] == s.locks[key])
    ensures s.now <= Apply(s, a).now && (Puts(s, a, key) ==> Apply(s, a).now == s.now)
  {
  }

  lemma {:induction false} LastPutSetsTheRow<V>(
    states: seq<State<V>>, actions: seq<Action<V>>, key: Key, i: nat, k: nat, j: nat)
    requires Run(states, actions) && j < |states| && LastPut(states, actions, key, i, k, j)
    ensures key in states[j].locks && states[j].locks[key] == Some(states[k].now + LOCK_EXPIRE_S)
    ensures states[k].now <= states[j].now
    decreases j
  {
    RowAfter(states[j - 1], actions[j - 1], key);
    if k < j - 1 {
      LastPutSetsTheRow(states, actions, key, i, k, j - 1);
    }
  }

  /** A row that carries a live expiry at `j` but not at `i` had it put there in between. */
  lemma {:induction false} ExpiryWasPut<V>(
    states: seq<State<V>>, actions: seq<Action<V>>, key: Key, i: nat, j: nat) returns (k: nat)
    requires Run(states, actions) && i < j < |states|
    requires !Expiring(states[i], key) && Expiring(states[j], key)
    ensures LastPut(states, actions, key, i, k, j)
    decreases j
  {
    var s, a := states[j - 1], actions[j - 1];
    RowAfter(s, a, key);
    if Puts(s, a, key) {
      k := j - 1;
    } else {
      assert !Drops(s, a, key) && Expiring(s, key);
      k := ExpiryWasPut(states, actions, key, i, j - 1);
    }
  }

  /** Worker `w` reads the row at `i` and finds no expiry, takes no step in between, and touches
      the row at `j`. */
  ghost predicate ReadThenTouch<V>(states: seq<State<V>>, actions: seq<Action<V>>, w: WorkerId, i: nat, j: nat) {
    && Run(states, actions) && i < j < |actions| && actions[i] == Step(w) && actions[j] == Step(w)
    && Idle(actions, w, i + 1, j)
    && states[i].workers[w].pc.ReadExpiry? && states[i + 1].workers[w].pc.Touch?
  }

  ghost predicate AtTouch<V>(s: State<V>, w: WorkerId, key: Key) {
    w in s.workers && s.workers[w] == Worker(key, Touch)
  }

  lemma TouchNext<V>(states: seq<State<V>>, actions: seq<Action<V>>, w: WorkerId, key: Key, m: nat, j: nat)
    requires Run(states, actions) && m < j < |actions| && actions[m] != Step(w) && actions[j] == Step(w)
    requires AtTouch(states[m], w, key)
    ensures AtTouch(states[m + 1], w, key)
  {
    OthersLeaveItThere(states[m], actions[m], w);
    if actions[m] == Die(w) {
      DeadStaysDead(states, actions, w, m + 1, j);
    }
  }

  lemma {:induction false} StillAtTouch<V>(
    states: seq<State<V>>, actions: seq<Action<V>>, w: WorkerId, i: nat, j: nat, m: nat)
    requires ReadThenTouch(states, actions, w, i, j) && i < m <= j
    ensures AtTouch(states[m], w, states[i].workers[w].key)
    decreases m
  {
    if m > i + 1 {
      var p := m - 1;
      StillAtTouch(states, actions, w, i, j, p);
      TouchNext(states, actions, w, states[i].workers[w].key, p, j);
    }
  }

  /** Another worker entered the lock, or touched its row, after `w` read it and at an earlier
      time, and that row has neither been released nor evicted nor has it run out. */
  ghost predicate HolderCameIn<V>(states: seq<State<V>>, actions: seq<Action<V>>, key: Key, i: nat, j: nat)
    requires Run(states, actions) && j < |states|
  {
    exists k: nat ::
      LastPut(states, actions, key, i + 1, k, j) && states[k].now < states[j].now < states[k].now + LOCK_EXPIRE_S
  }

  /** The touch leaves every row that carries a live expiry as it was. */
  ghost predicate LeavesHolders<V>(s: State<V>, t: State<V>) {
    forall k | Expiring(s, k) :: k in t.locks && t.locks[k] == s.locks[k]
  }

  /** Exactly when the orphan repair keeps its promise to leave a live holder untouched: unless
      another worker's expiry came in between reading the row and touching it. */
  lemma TouchSparesHoldersExactly<V(!new)>(
    states: seq<State<V>>, actions: seq<Action<V>>, w: WorkerId, i: nat, j: nat)
    requires ReadThenTouch(states, actions, w, i, j)
    ensures LeavesHolders(states[j], states[j + 1]) <==> !HolderCameIn(states, actions, states[i].workers[w].key, i, j)
  {
    var key, s := states[i].workers[w].key, states[j];
    StillAtTouch(states, actions, w, i, j, j);
    ProvenanceHolds(states, actions, j);
    if HolderCameIn(states, actions, key, i, j) {
      var k: nat :| LastPut(states, actions, key, i + 1, k, j) && states[k].now < s.now < states[k].now + LOCK_EXPIRE_S;
      LastPutSetsTheRow(states, actions, key, i + 1, k, j);
      assert Expiring(s, key);
    } else if Expiring(s, key) {
      ReadFoundNoExpiry(states[i], w);
      var k := ExpiryWasPut(states, actions, key, i + 1, j);
      LastPutSetsTheRow(states, actions, key, i + 1, k, j);
      assert s.locks[key] == Some(s.now + LOCK_EXPIRE_S);
    }
  }

  lemma ReadFoundNoExpiry<V>(s: State<V>, w: WorkerId)
    requires Enabled(s, Step(w)) && s.workers[w].pc.ReadExpiry? && Advance(s, w).workers[w].pc.Touch?
    ensures !Expiring(Advance(s, w), s.workers[w].key)
  {
  }

  /** Even then it never shortens an expiry and never drops a row. */
  lemma TouchOnlyExtends<V(!new)>(states: seq<State<V>>, actions: seq<Action<V>>, i: nat, w: WorkerId)
    requires Run(states, actions) && i < |states|
    requires w in states[i].workers && states[i].workers[w].pc.Touch?
    ensures var s, t := states[i], Apply(states[i], Step(w));
            && t.locks.Keys == s.locks.Keys
            && forall k | k in s.locks && s.locks[k].Some? :: t.locks[k].Some? && s.locks[k].value <= t.locks[k].value
  {
    ProvenanceHolds(states, actions, i);
  }

  lemma RowRunsOutWhileRead(key: Key) returns (s: State<int>)
    ensures Reachable(s) && s.now == 10.0 && s.entries == map[] && s.locks == map[key := Some(10.0)]
    ensures s.workers == map[0 := Worker(key, Touch)]
  {
    s := Fresh(map[key := Some(10.0)]);
    FreshIsReachable<int>(map[key := Some(10.0)]);
    s := ReachableNext(s, Call(0, key));
    s := ReachableNext(s, Step(0));
    s := FindsLockThenTime(s, key);
  }

  lemma FindsLockThenTime(s0: State<int>, key: Key) returns (s: State<int>)
    requires Reachable(s0) && s0.now == 0.0 && s0.entries == map[] && s0.locks == map[key := Some(10.0)]
    requires s0.workers == map[0 := Worker(key, CheckOrphan)]
    ensures Reachable(s) && s.now == 10.0 && s.entries == map[] && s.locks == map[key := Some(10.0)]
    ensures s.workers == map[0 := Worker(key, Touch)]
  {
    s := ReachableNext(s0, Step(0));
    s := ReachableNext(s, Tick(10.0));
    s := ReachableNext(s, Step(0));
  }

  /** A row runs out between the two reads, another worker takes the lock at 10 until 130, and at
      11 the touch moves that live holder's expiry to 131. */
  lemma LiveHolderIsTouched(key: Key) returns (s: State<int>, t: State<int>)
    ensures Reachable(s) && Enabled(s, Step(0)) && t == Apply(s, Step(0)) && Reachable(t)
    ensures s.workers == map[0 := Worker(key, Touch), 1 := Worker(key, Compute)] && s.now == 11.0
    ensures s.locks == map[key := Some(130.0)] && t.locks == map[key := Some(131.0)]
  {
    s := RowRunsOutWhileRead(key);
    s := MissIsComputed(s, 1, key);
    s := ReachableNext(s, Tick(1.0));
    t := ReachableNext(s, Step(0));
  }
}
