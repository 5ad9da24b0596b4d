/** The cross-process single-flight cache, `cached` in api/services/compute_cache.py.

    Any number of workers interleave over one shared store. Every read or write of the
    store is one step, so each line of `cached` and of `_bound_unexpiring_lock` that
    touches the store is a separate program point. Time passes, entries and locks expire
    or are evicted, computes raise, and a worker may be killed at any point. */
module SingleFlight {
  import opened Wrappers

  type Key = string
  type WorkerId = nat

  const TTL_S: real := 300.0
  const LOCK_EXPIRE_S: real := 120.0

  datatype Outcome<V> = Returned(value: V) | Raised

  /** Where a worker stands inside `cached`. `Store` already holds the computed value. */
  datatype Pc<V> =
    | Lookup
    | CheckOrphan
    | ReadExpiry
    | Touch
    | Acquire
    | Recheck
    | Compute
    | Store(computed: V)
    | Release(outcome: Outcome<V>)
    | Done(result: Outcome<V>)
    | Dead

  datatype Worker<V> = Worker(key: Key, pc: Pc<V>)
  datatype Entry<V> = Entry(value: V, expires: real)

  /** `locks` maps a key to the expiry of its lock row; `None` is a row that never expires.
      `completed`, `stored` and `lost` are logs: computes that returned a value, values
      written to the store, and values that died with their worker before being written. */
  datatype State<V> = State(
    now: real,
    entries: map<Key, Entry<V>>,
    locks: map<Key, Option<real>>,
    workers: map<WorkerId, Worker<V>>,
    completed: seq<(Key, V)>,
    stored: seq<(Key, V)>,
    lost: seq<(Key, V)>)

  datatype Action<V> =
    | Call(w: WorkerId, key: Key)
    | Step(w: WorkerId)
    | ComputeReturns(w: WorkerId, value: V)
    | ComputeRaises(w: WorkerId)
    | Die(w: WorkerId)
    | Tick(seconds: real)
    | EvictEntry(key: Key)
    | EvictLock(key: Key)

  // ---------- The store, as diskcache reads it: an expired row is a missing row ----------

  predicate Hit<V>(s: State<V>, key: Key) {
    key in s.entries && s.now < s.entries[key].expires
  }

  predicate Locked<V>(s: State<V>, key: Key) {
    key in s.locks && (s.locks[key].Some? ==> s.now < s.locks[key].value)
  }

  // ---------- Steps ----------

  predicate Enabled<V>(s: State<V>, a: Action<V>) {
    match a
    case Call(w, key) => w in s.workers ==> s.workers[w].pc.Done?
    case Step(w) =>
      && w in s.workers
      && var pc := s.workers[w].pc;
         && !pc.Compute? && !pc.Done? && !pc.Dead?
         && (pc.Acquire? ==> !Locked(s, s.workers[w].key))
    case ComputeReturns(w, _) => w in s.workers && s.workers[w].pc.Compute?
    case ComputeRaises(w) => w in s.workers && s.workers[w].pc.Compute?
    case Die(w) => w in s.workers && !s.workers[w].pc.Done? && !s.workers[w].pc.Dead?
    case Tick(seconds) => seconds >= 0.0
    case EvictEntry(_) => true
    case EvictLock(_) => true
  }

  function Goto<V>(s: State<V>, w: WorkerId, pc: Pc<V>): State<V>
    requires w in s.workers
  {
    s.(workers := s.workers[w := s.workers[w].(pc := pc)])
  }

  /** One line of `cached` (or of `_bound_unexpiring_lock`) run by worker `w`. */
  function Advance<V>(s: State<V>, w: WorkerId): State<V>
    requires Enabled(s, Step(w))
  {
    var key := s.workers[w].key;
    match s.workers[w].pc
    case Lookup =>
      if Hit(s, key) then Goto(s, w, Done(Returned(s.entries[key].value))) else Goto(s, w, CheckOrphan)
    case CheckOrphan =>
      Goto(s, w, if Locked(s, key) then ReadExpiry else Acquire)
    case ReadExpiry =>
      // A row released since the membership test also reads back with no expiry.
      Goto(s, w, if Locked(s, key) && s.locks[key].Some? then Acquire else Touch)
    case Touch =>
      var touched := if Locked(s, key) then s.locks[key := Some(s.now + LOCK_EXPIRE_S)] else s.locks;
      Goto(s.(locks := touched), w, Acquire)
    case Acquire =>
      Goto(s.(locks := s.locks[key := Some(s.now + LOCK_EXPIRE_S)]), w, Recheck)
    case Recheck =>
      if Hit(s, key) then Goto(s, w, Release(Returned(s.entries[key].value))) else Goto(s, w, Compute)
    case Store(v) =>
      Goto(s.(entries := s.entries[key := Entry(v, s.now + TTL_S)], stored := s.stored + [(key, v)]),
           w, Release(Returned(v)))
    case Release(outcome) =>
      // The release deletes the lock row whoever added it.
      Goto(s.(locks := s.locks - {key}), w, Done(outcome))
    case _ => s
  }

  function Apply<V>(s: State<V>, a: Action<V>): State<V>
    requires Enabled(s, a)
  {
    match a
    case Call(w, key) => s.(workers := s.workers[w := Worker(key, Lookup)])
    case Step(w) => Advance(s, w)
    case ComputeReturns(w, v) =>
      Goto(s.(completed := s.completed + [(s.workers[w].key, v)]), w, Store(v))
    case ComputeRaises(w) => Goto(s, w, Release(Raised))
    case Die(w) =>
      var pc := s.workers[w].pc;
      var lost := if pc.Store? then s.lost + [(s.workers[w].key, pc.computed)] else s.lost;
      Goto(s.(lost := lost), w, Dead)
    case Tick(seconds) => s.(now := s.now + seconds)
    case EvictEntry(key) => s.(entries := s.entries - {key})
    case EvictLock(key) => s.(locks := s.locks - {key})
  }

  /** Entries and log match: each live entry stands for the one compute that wrote it. */
  ghost predicate LeftBehind<V>(now: real, entries: map<Key, Entry<V>>, log: seq<(Key, V)>)
    decreases |log|
  {
    if |log| == 0 then entries == map[]
    else
      var (key, v) := log[|log| - 1];
      && key in entries && entries[key].value == v && now < entries[key].expires
      && LeftBehind(now, entries - {key}, log[..|log| - 1])
  }

  /** Before the first call the store may hold what earlier processes left: entries, each in the logs
      with the compute that wrote it, and lock rows, any of which may carry no expiry and none a
      longer one than this code gives. */
  ghost predicate Initial<V>(s: State<V>) {
    && s.workers == map[] && s.lost == [] && s.completed == s.stored
    && LeftBehind(s.now, s.entries, s.stored)
    && forall k | k in s.locks && s.locks[k].Some? :: s.locks[k].value <= s.now + LOCK_EXPIRE_S
  }

  ghost predicate Run<V>(states: seq<State<V>>, actions: seq<Action<V>>) {
    && |states| == |actions| + 1
    && Initial(states[0])
    && forall i | 0 <= i < |actions| ::
         Enabled(states[i], actions[i]) && states[i + 1] == Apply(states[i], actions[i])
  }

  // ---------- What holds over every run, however badly timed ----------

  /** The value a worker is about to return, or has returned. */
  ghost predicate Carries<V>(pc: Pc<V>, v: V) {
    pc == Store(v) || pc == Release(Returned(v)) || pc == Done(Returned(v))
  }

  ghost predicate Provenance<V(!new)>(s: State<V>) {
    && (forall k | k in s.entries :: (k, s.entries[k].value) in s.completed)
    && (forall w, v | w in s.workers && Carries(s.workers[w].pc, v) :: (s.workers[w].key, v) in s.completed)
    && (forall k | k in s.locks && s.locks[k].Some? :: s.locks[k].value <= s.now + LOCK_EXPIRE_S)
  }

  /** No lock row on `key` lacks an expiry. */
  predicate Bounded<V>(s: State<V>, key: Key) {
    key in s.locks ==> s.locks[key].Some?
  }

  /** The worker is past `_bound_unexpiring_lock`. */
  predicate PastOrphanCheck<V>(pc: Pc<V>) {
    pc.Acquire? || pc.Recheck? || pc.Compute? || pc.Store? || pc.Release?
  }

  lemma CarriedByStep<V(!new)>(s: State<V>, w: WorkerId, v: V)
    requires Enabled(s, Step(w)) && Provenance(s)
    requires Carries(Advance(s, w).workers[w].pc, v)
    ensures (s.workers[w].key, v) in s.completed
  {
    if s.workers[w].pc.Store? {
      assert Carries(s.workers[w].pc, s.workers[w].pc.computed);
    } else if s.workers[w].pc.Release? {
      assert Carries(s.workers[w].pc, v);
    }
  }

  lemma CompletedOnlyGrows<V(!new)>(s: State<V>, a: Action<V>, e: (Key, V))
    requires Enabled(s, a) && e in s.completed
    ensures e in Apply(s, a).completed
  {
  }

  lemma CarriedByOther<V(!new)>(s: State<V>, a: Action<V>, w: WorkerId, v: V)
    requires Enabled(s, a) && !a.Step?
    requires w in Apply(s, a).workers && (w in s.workers ==> Apply(s, a).workers[w] != s.workers[w])
    requires Carries(Apply(s, a).workers[w].pc, v)
    ensures (Apply(s, a).workers[w].key, v) in Apply(s, a).completed
  {
    if a.ComputeReturns? {
      assert Apply(s, a).completed == s.completed + [(s.workers[w].key, v)];
    }
  }

  lemma CarriedAfter<V(!new)>(s: State<V>, a: Action<V>, w: WorkerId, v: V)
    requires Enabled(s, a) && Provenance(s)
    requires w in Apply(s, a).workers && Carries(Apply(s, a).workers[w].pc, v)
    ensures (Apply(s, a).workers[w].key, v) in Apply(s, a).completed
  {
    if w in s.workers && Apply(s, a).workers[w] == s.workers[w] {
      assert Carries(s.workers[w].pc, v);
      CompletedOnlyGrows(s, a, (s.workers[w].key, v));
    } else if a.Step? {
      CarriedByStep(s, w, v);
    } else {
      CarriedByOther(s, a, w, v);
    }
  }

  lemma EntryAfter<V(!new)>(s: State<V>, a: Action<V>, k: Key)
    requires Enabled(s, a) && Provenance(s) && k in Apply(s, a).entries
    ensures (k, Apply(s, a).entries[k].value) in Apply(s, a).completed
  {
    if a.Step? && s.workers[a.w].pc.Store? && k == s.workers[a.w].key {
      assert Carries(s.workers[a.w].pc, s.workers[a.w].pc.computed);
    }
  }

  lemma ProvenanceStep<V(!new)>(s: State<V>, a: Action<V>)
    requires Enabled(s, a) && Provenance(s)
    ensures Provenance(Apply(s, a))
  {
    var t := Apply(s, a);
    forall w, v | w in t.workers && Carries(t.workers[w].pc, v)
      ensures (t.workers[w].key, v) in t.completed
    {
      CarriedAfter(s, a, w, v);
    }
    forall k | k in t.entries
      ensures (k, t.entries[k].value) in t.completed
    {
      EntryAfter(s, a, k);
    }
  }

  lemma {:induction false} ProvenanceHolds<V(!new)>(states: seq<State<V>>, actions: seq<Action<V>>, i: nat)
    requires Run(states, actions) && i < |states|
    ensures Provenance(states[i])
  {
    if i > 0 {
      ProvenanceHolds(states, actions, i - 1);
      ProvenanceStep(states[i - 1], actions[i - 1]);
    } else {
      StartsAsLog(states[0]);
    }
  }

  /** Every value any call returns came out of a completed compute of that same key, even
      when locks expire mid-compute, entries are evicted and lock holders die. */
  lemma ReturnedValuesWereComputed<V(!new)>(states: seq<State<V>>, actions: seq<Action<V>>, i: nat, w: WorkerId)
    requires Run(states, actions) && i < |states|
    requires w in states[i].workers && states[i].workers[w].pc.Done? && states[i].workers[w].pc.result.Returned?
    ensures (states[i].workers[w].key, states[i].workers[w].pc.result.value) in states[i].completed
  {
    ProvenanceHolds(states, actions, i);
    assert Carries(states[i].workers[w].pc, states[i].workers[w].pc.result.value);
  }

  /** When the key determines the value, a cached read is the direct compute. */
  lemma CachedReadIsDirectCompute<V(!new)>(
    states: seq<State<V>>, actions: seq<Action<V>>, direct: Key -> V, i: nat, w: WorkerId)
    requires Run(states, actions) && i < |states|
    requires forall c | c in states[i].completed :: c.1 == direct(c.0)
    requires w in states[i].workers && states[i].workers[w].pc.Done? && states[i].workers[w].pc.result.Returned?
    ensures states[i].workers[w].pc.result.value == direct(states[i].workers[w].key)
  {
    ReturnedValuesWereComputed(states, actions, i, w);
  }

  lemma BoundedStep<V>(s: State<V>, a: Action<V>, key: Key)
    requires Enabled(s, a)
    ensures Bounded(s, key) ==> Bounded(Apply(s, a), key)
  {
  }

  lemma {:induction false} BoundedFrom<V>(
    states: seq<State<V>>, actions: seq<Action<V>>, key: Key, i: nat, j: nat)
    requires Run(states, actions) && i <= j < |states|
    requires Bounded(states[i], key)
    ensures Bounded(states[j], key)
  {
    if i < j {
      BoundedFrom(states, actions, key, i, j - 1);
      BoundedStep(states[j - 1], actions[j - 1], key);
    }
  }

  lemma FirstChecked<V>(s: State<V>, a: Action<V>, w: WorkerId)
    requires Enabled(s, a) && w in Apply(s, a).workers && PastOrphanCheck(Apply(s, a).workers[w].pc)
    requires w in s.workers && PastOrphanCheck(s.workers[w].pc) ==> Apply(s, a).workers[w].key != s.workers[w].key
    ensures Bounded(Apply(s, a), Apply(s, a).workers[w].key)
  {
  }

  lemma {:induction false} CheckedKeyIsBounded<V>(
    states: seq<State<V>>, actions: seq<Action<V>>, i: nat, w: WorkerId)
    requires Run(states, actions) && i < |states|
    requires w in states[i].workers && PastOrphanCheck(states[i].workers[w].pc)
    ensures Bounded(states[i], states[i].workers[w].key)
  {
    var s, a := states[i - 1], actions[i - 1];
    if w in s.workers && PastOrphanCheck(s.workers[w].pc) && states[i].workers[w].key == s.workers[w].key {
      CheckedKeyIsBounded(states, actions, i - 1, w);
      BoundedStep(s, a, s.workers[w].key);
    } else {
      FirstChecked(s, a, w);
    }
  }

  /** Once any caller has passed the orphan check, no lock row without an expiry exists on
      its key in any later state. */
  lemma OrphanCheckBoundsForever<V>(
    states: seq<State<V>>, actions: seq<Action<V>>, i: nat, j: nat, w: WorkerId)
    requires Run(states, actions) && i <= j < |states|
    requires w in states[i].workers && PastOrphanCheck(states[i].workers[w].pc)
    ensures Bounded(states[j], states[i].workers[w].key)
  {
    CheckedKeyIsBounded(states, actions, i, w);
    BoundedFrom(states, actions, states[i].workers[w].key, i, j);
  }

  /** No caller waits for good: whatever happened before, a caller at the lock can take it
      once LOCK_EXPIRE_S pass with nobody else touching the row. */
  lemma WaitIsBounded<V(!new)>(states: seq<State<V>>, actions: seq<Action<V>>, i: nat, w: WorkerId)
    requires Run(states, actions) && i < |states|
    requires w in states[i].workers && states[i].workers[w].pc.Acquire?
    ensures Enabled(Apply(states[i], Tick(LOCK_EXPIRE_S)), Step(w))
  {
    ProvenanceHolds(states, actions, i);
    CheckedKeyIsBounded(states, actions, i, w);
  }

  // ---------- What holds when computes outrun neither their locks nor the store ----------

  predicate Critical<V>(pc: Pc<V>) {
    pc.Recheck? || pc.Compute? || pc.Store? || pc.Release?
  }

  /** No compute outlives its lock and nothing is evicted, the entries' own expiry included.
      Workers may still die anywhere. */
  ghost predicate Timely<V>(s: State<V>, a: Action<V>) {
    match a
    case Tick(seconds) =>
      && (forall w | w in s.workers && Critical(s.workers[w].pc) && s.workers[w].key in s.locks ::
            var row := s.locks[s.workers[w].key]; row.Some? ==> s.now + seconds < row.value)
      && (forall k | k in s.entries :: s.now + seconds < s.entries[k].expires)
    case EvictEntry(_) => false
    case EvictLock(_) => false
    case _ => true
  }

  ghost predicate TimelyRun<V>(states: seq<State<V>>, actions: seq<Action<V>>) {
    Run(states, actions) && forall i | 0 <= i < |actions| :: Timely(states[i], actions[i])
  }

  /** If `w` is inside the lock, the lock's row holds. */
  predicate HoldsRow<V>(s: State<V>, w: WorkerId)
    requires w in s.workers
  {
    var Worker(k, pc) := s.workers[w];
    Critical(pc) ==> k in s.locks && s.locks[k].Some? && s.now < s.locks[k].value
  }

  predicate Apart<V>(s: State<V>, w: WorkerId, x: WorkerId)
    requires w in s.workers && x in s.workers
  {
    w != x && Critical(s.workers[w].pc) && Critical(s.workers[x].pc) ==> s.workers[w].key != s.workers[x].key
  }

  /** At most one live worker per key is inside the lock, and its row holds. */
  ghost predicate Exclusive<V>(s: State<V>) {
    && (forall w | w in s.workers :: HoldsRow(s, w))
    && (forall w, x | w in s.workers && x in s.workers :: Apart(s, w, x))
  }

  /** Whoever is about to compute or write a key finds it empty, and whoever is about to
      return a value has it from the log of writes. */
  predicate Faithful<V(==)>(s: State<V>, w: WorkerId)
    requires w in s.workers
  {
    var Worker(k, pc) := s.workers[w];
    && (pc.Compute? || pc.Store? ==> k !in s.entries)
    && (pc.Release? && pc.outcome.Returned? ==> (k, pc.outcome.value) in s.stored)
    && (pc.Done? && pc.result.Returned? ==> (k, pc.result.value) in s.stored)
  }

  /** The store holds exactly what was written to it, one value per key. */
  ghost predicate StoreIsLog<V>(s: State<V>) {
    && (forall k | k in s.entries :: Hit(s, k) && (k, s.entries[k].value) in s.stored)
    && (forall e | e in s.stored :: e.0 in s.entries && s.entries[e.0].value == e.1)
  }

  ghost predicate OneValue<V(!new)>(s: State<V>) {
    StoreIsLog(s) && forall w | w in s.workers :: Faithful(s, w)
  }

  function Count<V>(log: seq<(Key, V)>, key: Key): nat {
    if |log| == 0 then 0
    else Count(log[..|log| - 1], key) + if log[|log| - 1].0 == key then 1 else 0
  }

  ghost predicate Writing<V>(s: State<V>, key: Key) {
    exists w :: w in s.workers && s.workers[w].key == key && s.workers[w].pc.Store?
  }

  /** Every completed compute of `key` was written, lost with its worker, or is about to be
      written, and the writes of a key number one or none. */
  ghost predicate Accounted<V>(s: State<V>, key: Key) {
    && Count(s.completed, key) == Count(s.stored, key) + Count(s.lost, key) + (if Writing(s, key) then 1 else 0)
    && Count(s.stored, key) == if key in s.entries then 1 else 0
  }

  lemma {:induction false} LeftBehindIsLog<V>(now: real, entries: map<Key, Entry<V>>, log: seq<(Key, V)>, k: Key)
    requires LeftBehind(now, entries, log)
    ensures k in entries ==> now < entries[k].expires && (k, entries[k].value) in log
    ensures forall e | e in log && e.0 == k :: k in entries && entries[k].value == e.1
    ensures Count(log, k) == if k in entries then 1 else 0
    decreases |log|
  {
    if |log| > 0 {
      var most, last := log[..|log| - 1], log[|log| - 1];
      assert log == most + [last];
      LeftBehindIsLog(now, entries - {last.0}, most, k);
    }
  }

  lemma StartsAsLog<V>(s: State<V>)
    requires Initial(s)
    ensures StoreIsLog(s) && forall k :: Count(s.stored, k) == if k in s.entries then 1 else 0
  {
    forall k ensures Count(s.stored, k) == if k in s.entries then 1 else 0 {
      LeftBehindIsLog(s.now, s.entries, s.stored, k);
    }
    forall k | k in s.entries ensures Hit(s, k) && (k, s.entries[k].value) in s.stored {
      LeftBehindIsLog(s.now, s.entries, s.stored, k);
    }
    forall e | e in s.stored ensures e.0 in s.entries && s.entries[e.0].value == e.1 {
      LeftBehindIsLog(s.now, s.entries, s.stored, e.0);
    }
  }

  lemma CountAppend<V>(log: seq<(Key, V)>, e: (Key, V), key: Key)
    ensures Count(log + [e], key) == Count(log, key) + if e.0 == key then 1 else 0
  {
    assert (log + [e])[..|log|] == log;
  }

  lemma RowKept<V>(s: State<V>, a: Action<V>, w: WorkerId)
    requires Enabled(s, a) && Timely(s, a) && Exclusive(s) && w in Apply(s, a).workers
    ensures HoldsRow(Apply(s, a), w)
  {
    if w in s.workers && (a.Step? || a.ComputeReturns? || a.ComputeRaises? || a.Die?) {
      assert HoldsRow(s, w) && HoldsRow(s, a.w) && Apart(s, w, a.w);
    }
  }

  /** Entering the lock, a worker finds no row of another worker inside it. */
  lemma ActorApart<V>(s: State<V>, w: WorkerId, x: WorkerId)
    requires Enabled(s, Step(w)) && x in s.workers && w != x && HoldsRow(s, x) && Apart(s, w, x)
    ensures Apart(Advance(s, w), w, x)
  {
  }

  lemma ApartAfterStep<V>(s: State<V>, a: Action<V>, w: WorkerId, x: WorkerId)
    requires Enabled(s, a) && a.Step? && Exclusive(s) && w in s.workers && x in s.workers
    ensures Apart(Apply(s, a), w, x)
  {
    assert Apart(s, w, x);
    if w != x && a.w == w {
      assert HoldsRow(s, x);
      ActorApart(s, w, x);
    } else if w != x && a.w == x {
      assert HoldsRow(s, w) && Apart(s, x, w);
      ActorApart(s, x, w);
    }
  }

  lemma ApartKept<V>(s: State<V>, a: Action<V>, w: WorkerId, x: WorkerId)
    requires Enabled(s, a) && Timely(s, a) && Exclusive(s)
    requires w in Apply(s, a).workers && x in Apply(s, a).workers
    ensures Apart(Apply(s, a), w, x)
  {
    if w in s.workers && x in s.workers {
      if a.Step? {
        ApartAfterStep(s, a, w, x);
      } else {
        assert Apart(s, w, x);
      }
    }
  }

  lemma EntriesAreLogged<V(!new)>(s: State<V>, a: Action<V>, k: Key)
    requires Enabled(s, a) && Timely(s, a) && StoreIsLog(s) && k in Apply(s, a).entries
    ensures Hit(Apply(s, a), k) && (k, Apply(s, a).entries[k].value) in Apply(s, a).stored
  {
    if k in s.entries {
      assert Hit(s, k) && (k, s.entries[k].value) in s.stored;
    }
  }

  lemma StoreKept<V(!new)>(s: State<V>, a: Action<V>)
    requires Enabled(s, a) && Timely(s, a) && Exclusive(s) && OneValue(s)
    ensures StoreIsLog(Apply(s, a))
  {
    if a.Step? {
      assert Faithful(s, a.w);
    }
    forall k | k in Apply(s, a).entries
      ensures Hit(Apply(s, a), k) && (k, Apply(s, a).entries[k].value) in Apply(s, a).stored
    {
      EntriesAreLogged(s, a, k);
    }
  }

  lemma ActorFaithful<V(!new)>(s: State<V>, a: Action<V>)
    requires Enabled(s, a) && Exclusive(s) && OneValue(s)
    requires a.Step? || a.ComputeReturns? || a.ComputeRaises? || a.Die?
    ensures Faithful(Apply(s, a), a.w)
  {
    assert Faithful(s, a.w);
  }

  lemma BystanderFaithful<V(!new)>(s: State<V>, a: Action<V>, w: WorkerId)
    requires Enabled(s, a) && Timely(s, a) && Exclusive(s) && OneValue(s)
    requires w in s.workers && Apply(s, a).workers[w] == s.workers[w]
    requires a.Step? ==> w != a.w
    ensures Faithful(Apply(s, a), w)
  {
    assert Faithful(s, w);
    if a.Step? && s.workers[a.w].pc.Store? {
      assert Apart(s, w, a.w);
    }
  }

  lemma FaithfulKept<V(!new)>(s: State<V>, a: Action<V>, w: WorkerId)
    requires Enabled(s, a) && Timely(s, a) && Exclusive(s) && OneValue(s) && w in Apply(s, a).workers
    ensures Faithful(Apply(s, a), w)
  {
    if (a.Step? || a.ComputeReturns? || a.ComputeRaises? || a.Die?) && w == a.w {
      ActorFaithful(s, a);
    } else if !(a.Call? && w == a.w) {
      BystanderFaithful(s, a, w);
    }
  }

  /** A step of another key's worker, or one that neither starts nor ends a write, leaves
      `Writing` as it was. */
  lemma WritingKept<V(!new)>(s: State<V>, a: Action<V>, key: Key)
    requires Enabled(s, a)
    requires (a.ComputeReturns? || a.Step? || a.Die?) && s.workers[a.w].key == key ==>
               !a.ComputeReturns? && !s.workers[a.w].pc.Store?
    ensures Writing(Apply(s, a), key) == Writing(s, key)
  {
    var t := Apply(s, a);
    if Writing(s, key) {
      var w :| w in s.workers && s.workers[w].key == key && s.workers[w].pc.Store?;
      assert t.workers[w] == s.workers[w];
    }
    if Writing(t, key) {
      var w :| w in t.workers && t.workers[w].key == key && t.workers[w].pc.Store?;
      assert t.workers[w] == s.workers[w];
    }
  }

  lemma OnlyWriter<V(!new)>(s: State<V>, w: WorkerId, x: WorkerId)
    requires Exclusive(s) && w in s.workers && x in s.workers && w != x
    requires Critical(s.workers[w].pc) && s.workers[x].key == s.workers[w].key
    ensures !s.workers[x].pc.Store?
  {
    assert Apart(s, w, x);
  }

  lemma AccountedAtCompute<V(!new)>(s: State<V>, w: WorkerId, v: V)
    requires Enabled(s, ComputeReturns(w, v)) && Exclusive(s) && Accounted(s, s.workers[w].key)
    ensures Accounted(Apply(s, ComputeReturns(w, v)), s.workers[w].key)
  {
    var t, key := Apply(s, ComputeReturns(w, v)), s.workers[w].key;
    assert !Writing(s, key) by {
      if Writing(s, key) {
        var x :| x in s.workers && s.workers[x].key == key && s.workers[x].pc.Store?;
        OnlyWriter(s, w, x);
      }
    }
    assert w in t.workers && t.workers[w].key == key && t.workers[w].pc.Store?;
    CountAppend(s.completed, (key, v), key);
  }

  lemma AccountedAtWrite<V(!new)>(s: State<V>, a: Action<V>)
    requires Enabled(s, a) && (a.Step? || a.Die?) && s.workers[a.w].pc.Store?
    requires Exclusive(s) && OneValue(s) && Accounted(s, s.workers[a.w].key)
    ensures Accounted(Apply(s, a), s.workers[a.w].key)
  {
    var t, key := Apply(s, a), s.workers[a.w].key;
    assert Writing(s, key) && Faithful(s, a.w);
    assert !Writing(t, key) by {
      if Writing(t, key) {
        var x :| x in t.workers && t.workers[x].key == key && t.workers[x].pc.Store?;
        OnlyWriter(s, a.w, x);
      }
    }
    CountAppend(if a.Die? then s.lost else s.stored, (key, s.workers[a.w].pc.computed), key);
  }

  lemma LogsKept<V(!new)>(s: State<V>, a: Action<V>, key: Key)
    requires Enabled(s, a) && Timely(s, a)
    requires (a.ComputeReturns? || a.Step? || a.Die?) && s.workers[a.w].key == key ==>
               !a.ComputeReturns? && !s.workers[a.w].pc.Store?
    ensures var t := Apply(s, a);
            && Count(t.completed, key) == Count(s.completed, key)
            && Count(t.stored, key) == Count(s.stored, key)
            && Count(t.lost, key) == Count(s.lost, key)
            && (key in t.entries <==> key in s.entries)
  {
    if a.ComputeReturns? {
      CountAppend(s.completed, (s.workers[a.w].key, a.value), key);
    } else if (a.Step? || a.Die?) && s.workers[a.w].pc.Store? {
      CountAppend(if a.Die? then s.lost else s.stored, (s.workers[a.w].key, s.workers[a.w].pc.computed), key);
    }
  }

  lemma AccountedStep<V(!new)>(s: State<V>, a: Action<V>, key: Key)
    requires Enabled(s, a) && Timely(s, a) && Exclusive(s) && OneValue(s) && Accounted(s, key)
    ensures Accounted(Apply(s, a), key)
  {
    if a.ComputeReturns? && s.workers[a.w].key == key {
      AccountedAtCompute(s, a.w, a.value);
    } else if (a.Step? || a.Die?) && s.workers[a.w].pc.Store? && s.workers[a.w].key == key {
      AccountedAtWrite(s, a);
    } else {
      WritingKept(s, a, key);
      LogsKept(s, a, key);
    }
  }

  lemma TimelyStep<V(!new)>(s: State<V>, a: Action<V>)
    requires Enabled(s, a) && Timely(s, a) && Exclusive(s) && OneValue(s)
    ensures Exclusive(Apply(s, a)) && OneValue(Apply(s, a))
  {
    var t := Apply(s, a);
    StoreKept(s, a);
    forall w | w in t.workers ensures HoldsRow(t, w) && Faithful(t, w) {
      RowKept(s, a, w);
      FaithfulKept(s, a, w);
    }
    forall w, x | w in t.workers && x in t.workers ensures Apart(t, w, x) {
      ApartKept(s, a, w, x);
    }
  }

  lemma {:induction false} TimelyInvariant<V(!new)>(states: seq<State<V>>, actions: seq<Action<V>>, i: nat)
    requires TimelyRun(states, actions) && i < |states|
    ensures Exclusive(states[i]) && OneValue(states[i])
  {
    if i > 0 {
      TimelyInvariant(states, actions, i - 1);
      TimelyStep(states[i - 1], actions[i - 1]);
    } else {
      StartsAsLog(states[0]);
    }
  }

  lemma {:induction false} ComputesAreAccounted<V(!new)>(
    states: seq<State<V>>, actions: seq<Action<V>>, i: nat, key: Key)
    requires TimelyRun(states, actions) && i < |states|
    ensures Accounted(states[i], key)
  {
    if i > 0 {
      ComputesAreAccounted(states, actions, i - 1, key);
      TimelyInvariant(states, actions, i - 1);
      AccountedStep(states[i - 1], actions[i - 1], key);
    } else {
      StartsAsLog(states[0]);
    }
  }

  lemma {:induction false} StoredOnlyGrows<V(!new)>(
    states: seq<State<V>>, actions: seq<Action<V>>, e: (Key, V), i: nat, j: nat)
    requires Run(states, actions) && i <= j < |states| && e in states[i].stored
    ensures e in states[j].stored
  {
    if i < j {
      StoredOnlyGrows(states, actions, e, i, j - 1);
    }
  }

  /** For any number of workers and any interleaving, if no compute outlives its lock and
      nothing is evicted: a key is computed to completion at most once, apart from values
      that died with their worker before being written. */
  lemma ComputedAtMostOnce<V(!new)>(states: seq<State<V>>, actions: seq<Action<V>>, i: nat, key: Key)
    requires TimelyRun(states, actions) && i < |states|
    ensures Count(states[i].completed, key) <= 1 + Count(states[i].lost, key)
    ensures Count(states[i].stored, key) <= 1
  {
    ComputesAreAccounted(states, actions, i, key);
    TimelyInvariant(states, actions, i);
    if Writing(states[i], key) {
      var w :| w in states[i].workers && states[i].workers[w].key == key && states[i].workers[w].pc.Store?;
      assert Faithful(states[i], w);
    }
  }

  /** Under the same conditions all callers of a key return the one value, whenever in the
      run they return it. */
  lemma CallersAgree<V(!new)>(
    states: seq<State<V>>, actions: seq<Action<V>>, i: nat, j: nat, w: WorkerId, x: WorkerId)
    requires TimelyRun(states, actions) && i <= j < |states|
    requires w in states[i].workers && states[i].workers[w].pc.Done? && states[i].workers[w].pc.result.Returned?
    requires x in states[j].workers && states[j].workers[x].pc.Done? && states[j].workers[x].pc.result.Returned?
    requires states[i].workers[w].key == states[j].workers[x].key
    ensures states[i].workers[w].pc.result == states[j].workers[x].pc.result
  {
    TimelyInvariant(states, actions, i);
    TimelyInvariant(states, actions, j);
    assert Faithful(states[i], w) && Faithful(states[j], x);
    StoredOnlyGrows(states, actions, (states[i].workers[w].key, states[i].workers[w].pc.result.value), i, j);
  }
}
