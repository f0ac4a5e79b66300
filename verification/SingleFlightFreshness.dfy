/** How old a value can be when the cache hands it over, over every interleaving. */
module SingleFlightFreshness {
  import opened CacheSupport
  import opened Wrappers
  import opened SingleFlight

  /** The lifetime of a write lies within the bounds its policy sets; a zero jitter means the configured one. */
  predicate Bounded(w: Written, jitter: int) {
    var j := if w.policy.jitter == 0 then jitter else w.policy.jitter;
    Max(w.policy.ttl, 1) <= w.soft <= Max(w.policy.ttl + Max(j, 0), 1)
  }

  /** The entry a write leaves. */
  function EntryOf(w: Written): Entry {
    Entry(Wrap(w.value, w.at, w.soft, w.policy.swr), w.at + 1000 * (w.soft + Max(w.policy.swr, 0)))
  }

  /** The entry under `key` was left there by write `w` of the run. */
  predicate WrittenBy(s: State, key: Key, w: Written) {
    w in s.log.writes && w.key == key && w.at <= s.now && Bounded(w, s.jitter)
    && key in s.redis.store && s.redis.store[key] == EntryOf(w)
  }

  ghost predicate Inv(store: Store, s: State) {
    forall key :: key in s.redis.store ==> Dated(store, s, key)
  }

  /** The entry under `key` is the one Redis held at the start, or was written in the run. */
  ghost predicate Dated(store: Store, s: State, key: Key)
    requires key in s.redis.store
  {
    (key in store && s.redis.store[key] == store[key]) || exists w :: WrittenBy(s, key, w)
  }

  /** A write by now is a write by later, and the history only grows. */
  lemma WrittenStays(s: State, s': State, key: Key, w: Written)
    requires WrittenBy(s, key, w) && s.log.writes <= s'.log.writes && s.now <= s'.now && s'.jitter == s.jitter
    requires key in s'.redis.store && s'.redis.store[key] == s.redis.store[key]
    ensures WrittenBy(s', key, w)
  {}

  lemma KeptIsDated(store: Store, s: State, s': State, key: Key)
    requires key in s.redis.store && Dated(store, s, key)
    requires s.log.writes <= s'.log.writes && s.now <= s'.now && s'.jitter == s.jitter
    requires key in s'.redis.store && s'.redis.store[key] == s.redis.store[key]
    ensures Dated(store, s', key)
  {
    if !(key in store && s.redis.store[key] == store[key]) {
      var w :| WrittenBy(s, key, w);
      WrittenStays(s, s', key, w);
    }
  }

  /** A step of a task leaves every entry as it was, or writes the one its history records. */
  lemma AdvanceWrites(s: State, t: TaskId, io: Io, key: Key)
    requires Enabled(s, Advance(t, io)) && key in Next(s, Advance(t, io)).redis.store
    ensures var s' := Next(s, Advance(t, io));
      && s.log.writes <= s'.log.writes
      && ((key in s.redis.store && s'.redis.store[key] == s.redis.store[key]) || exists w :: WrittenBy(s', key, w))
  {
    hide NextPc, NextLocks, NextTable, Wrap, SoftTtl;
    var task := s.tasks[t];
    var s' := Next(s, Advance(t, io));
    var w := Writing(s, task, io);
    if io.applied && w.Some? && w.value.key == key { assert WrittenBy(s', key, w.value); }
  }

  lemma NextInv(store: Store, s: State, step: Step)
    requires Inv(store, s) && Enabled(s, step)
    ensures Inv(store, Next(s, step))
  {
    hide Dated, WrittenBy;
    var s' := Next(s, step);
    forall key | key in s'.redis.store ensures Dated(store, s', key) {
      match step
      case Advance(t, io) =>
        AdvanceWrites(s, t, io, key);
        SettleDated(store, s, s', key);
      case _ => KeptIsDated(store, s, s', key);
    }
  }

  lemma SettleDated(store: Store, s: State, s': State, key: Key)
    requires key in s'.redis.store && s.log.writes <= s'.log.writes && s.now <= s'.now && s'.jitter == s.jitter
    requires (key in s.redis.store && s'.redis.store[key] == s.redis.store[key]) || exists w :: WrittenBy(s', key, w)
    requires key in s.redis.store ==> Dated(store, s, key)
    ensures Dated(store, s', key)
  {
    if key in s.redis.store && s'.redis.store[key] == s.redis.store[key] { KeptIsDated(store, s, s', key); }
  }

  lemma {:induction false} RunInv(store: Store, s: State, steps: seq<Step>)
    requires Inv(store, s) && Legal(s, steps)
    ensures Inv(store, Exec(s, steps))
    decreases |steps|
  {
    hide Inv;
    if |steps| > 0 {
      NextInv(store, s, steps[0]);
      RunInv(store, Next(s, steps[0]), steps[1..]);
    }
  }

  /** Main result.  Whatever a read finds in a reachable state was in Redis from the start, or was written (or
      moved) by the run less than its soft lifetime and stale window ago, the soft lifetime lying within the
      bounds of the policy it was written with; and it is past that soft lifetime only if there is a stale
      window. */
  lemma ServedValuesAreFresh(init: State, steps: seq<Step>, key: Key, v: Json)
    requires Init(init) && Legal(init, steps)
    requires var s := Exec(init, steps); LookIn(s.redis.store, key, s.now) == Found(v)
    ensures var s := Exec(init, steps);
      || (key in init.redis.store && s.redis.store[key] == init.redis.store[key] && s.now < init.redis.store[key].expires)
      || exists w :: WrittenBy(s, key, w)
           && w.at <= s.now < w.at + 1000 * (w.soft + Max(w.policy.swr, 0))
           && (w.policy.swr > 0 || Plain(w.value) ==> w.value == v)
           && (w.policy.swr <= 0 ==> s.now < w.at + 1000 * w.soft)
  {
    hide Exec, Legal, Init;
    var s := Exec(init, steps);
    assert Inv(init.redis.store, init);
    RunInv(init.redis.store, init, steps);
    assert Dated(init.redis.store, s, key);
    if !(key in init.redis.store && s.redis.store[key] == init.redis.store[key]) {
      var w :| WrittenBy(s, key, w);
      FoundWithinLifetime(s, key, v, w);
    }
  }

  lemma FoundWithinLifetime(s: State, key: Key, v: Json, w: Written)
    requires WrittenBy(s, key, w) && LookIn(s.redis.store, key, s.now) == Found(v)
    ensures s.now < w.at + 1000 * (w.soft + Max(w.policy.swr, 0))
    ensures w.policy.swr > 0 || Plain(w.value) ==> w.value == v
  {
    var store := s.redis.store;
    assert SetJson(store, key, w.value, w.at, w.soft, w.policy.swr) == store;
    if w.value != JNull && (w.policy.swr > 0 || Plain(w.value)) {
      ReadAfterWrite(store, key, w.value, w.at, w.soft, w.policy.swr, s.now);
    }
  }
}
