/** `TenantCache`: one process's cache object, its methods run without interruption.

    `up` says whether Redis answers.  The protocol in `SingleFlight` interleaves the same operations;
    `SoloCalls` proves that a call left alone there does what `CallAlone` says here. */
module TenantCache {
  import opened CacheSupport
  import opened CacheSingleflight
  import opened Wrappers
  import opened SingleFlight

  /** What a call finds: Redis and its state, the clock, the settings, and the next token. */
  datatype World = World(up: bool, now: int, lockTtl: int, jitter: int, store: Store, locks: Locks, token: nat)

  /** A call either ends, or waits for a future another call of the process has registered. */
  datatype Answer = Done(out: Outcome) | Waits(fut: FutId)

  datatype Result = Result(answer: Answer, store: Store, locks: Locks)

  /** What a read amounts to for the caller, Redis up or down. */
  function Seen(w: World, key: Key, policy: Policy): Looked {
    if w.up then LookIn(w.store, key, w.now) else if policy.failClosed then Fails else Absent
  }

  function WrittenNow(w: World, key: Key, v: Json, policy: Policy, draw: nat): Written {
    Written(key, v, w.now, SoftTtl(policy.ttl, policy.jitter, w.jitter, draw), policy)
  }

  /** The outcome of a fill whose factory ends with `factory`: only a CLOSED write error changes it. */
  function Filled(w: World, policy: Policy, factory: Outcome): Outcome {
    if factory.Value? && !w.up && policy.failClosed && Writes(policy, factory.v) then Raised(CacheError) else factory
  }

  /** What a fill leaves in the store. */
  function FilledStore(w: World, key: Key, policy: Policy, factory: Outcome, draw: nat): Store {
    if !w.up || factory.Raised? || !Writes(policy, factory.v) then w.store
    else if factory.v == JNull then
      Put(w.store, WrittenNow(w, key, NegativePayload(w.now), NegativePolicy(policy), draw))
    else Put(w.store, WrittenNow(w, key, factory.v, policy, draw))
  }

  /** The fill under the Redis lock: taken, filled and released, or else one more look before filling anyway. */
  function LockedFill(w: World, key: Key, policy: Policy, factory: Outcome, draw: nat): Result {
    var filled := Result(Done(Filled(w, policy, factory)), FilledStore(w, key, policy, factory, draw), w.locks);
    if w.up && !Held(w.locks, key, w.now) then
      var taken := TryLock(w.locks, key, w.token, w.now, w.lockTtl);
      filled.(locks := CompareAndDelete(taken, key, w.token, w.now))
    else
      match Seen(w, key, policy)
      case Found(v) => Result(Done(Value(v)), w.store, w.locks)
      case Fails => Result(Done(Raised(CacheError)), w.store, w.locks)
      case Absent => filled
  }

  /** The first legacy key that can answer. */
  function FirstLegacy(w: World, legacy: seq<Key>, policy: Policy, from: nat): (i: nat)
    requires from <= |legacy|
    ensures from <= i <= |legacy|
    ensures forall j :: from <= j < i ==> Seen(w, legacy[j], policy).Absent?
    ensures i < |legacy| ==> !Seen(w, legacy[i], policy).Absent?
    decreases |legacy| - from
  {
    if from == |legacy| || !Seen(w, legacy[from], policy).Absent? then from else FirstLegacy(w, legacy, policy, from + 1)
  }

  /** A found legacy value is written under the new key and deleted under the old one. */
  function Moved(w: World, key: Key, legacy: Key, v: Json, policy: Policy, draw: nat): Store {
    Put(w.store, WrittenNow(w, key, v, policy, draw)) - {legacy}
  }

  /** The rest of a call that has missed its key and the first `from` legacy keys.  `entry` is the process's
      registered future for the key and what it has been resolved with, if any. */
  function CallFromLegacy(
      w: World, entry: Option<(FutId, Option<Outcome>)>, key: Key, legacy: seq<Key>, policy: Policy, factory: Outcome,
      draw: nat, from: nat): Result
    requires from <= |legacy|
  {
    var i := FirstLegacy(w, legacy, policy, from);
    if i < |legacy| then
      match Seen(w, legacy[i], policy)
      case Found(v) => Result(Done(Value(v)), Moved(w, key, legacy[i], v, policy, draw), w.locks)
      case _ => Result(Done(Raised(CacheError)), w.store, w.locks)
    else if !policy.singleflight then
      Result(Done(Filled(w, policy, factory)), FilledStore(w, key, policy, factory, draw), w.locks)
    else if entry.Some? then
      Result(if entry.value.1.Some? then Done(entry.value.1.value) else Waits(entry.value.0), w.store, w.locks)
    else LockedFill(w, key, policy, factory, draw)
  }

  /** `get_or_set`, with nothing else going on. */
  function CallAlone(
      w: World, entry: Option<(FutId, Option<Outcome>)>, key: Key, legacy: seq<Key>, policy: Policy, factory: Outcome,
      draw: nat): Result
  {
    match Seen(w, key, policy)
    case Found(v) => Result(Done(Value(v)), w.store, w.locks)
    case Fails => Result(Done(Raised(CacheError)), w.store, w.locks)
    case Absent => CallFromLegacy(w, entry, key, legacy, policy, factory, draw, 0)
  }

  // ---- What a call amounts to ----

  /** With Redis down and OPEN a call that joins nobody is just its factory. */
  lemma DownAndOpenIsJustTheFactory(
      w: World, key: Key, legacy: seq<Key>, policy: Policy, factory: Outcome, draw: nat)
    requires !w.up && !policy.failClosed
    ensures CallAlone(w, None, key, legacy, policy, factory, draw) == Result(Done(factory), w.store, w.locks)
  {}

  /** With Redis down and CLOSED a call raises and does not run its factory's value in. */
  lemma DownAndClosedRaises(
      w: World, entry: Option<(FutId, Option<Outcome>)>, key: Key, legacy: seq<Key>, policy: Policy, factory: Outcome,
      draw: nat)
    requires !w.up && policy.failClosed
    ensures CallAlone(w, entry, key, legacy, policy, factory, draw) == Result(Done(Raised(CacheError)), w.store, w.locks)
  {}

  /** Nothing is stored under the key, or what is has expired. */
  predicate Gone(w: World, key: Key) {
    key !in w.store || w.store[key].expires <= w.now
  }

  /** A call whose key is gone, and whose first legacy key with anything in it holds `v`, answers `v`, stores it under
      the new key for its whole lifetime, deletes it under the old one, and touches no other key. */
  lemma LegacyValueIsMoved(
      w: World, entry: Option<(FutId, Option<Outcome>)>, key: Key, legacy: seq<Key>, policy: Policy, factory: Outcome,
      draw: nat, i: nat, later: int)
    requires w.up && i < |legacy| && Gone(w, key) && legacy[i] != key && forall j :: 0 <= j < i ==> Gone(w, legacy[j])
    requires !Gone(w, legacy[i]) && Plain(w.store[legacy[i]].payload) && w.store[legacy[i]].payload != JNull
    requires w.now <= later < w.now + 1000 * Max(policy.ttl, 1)
    ensures var v := w.store[legacy[i]].payload;
      var r := CallAlone(w, entry, key, legacy, policy, factory, draw);
      && r.answer == Done(Value(v)) && r.locks == w.locks
      && legacy[i] !in r.store && LookIn(r.store, key, later) == Found(v)
      && r.store - {key, legacy[i]} == w.store - {key, legacy[i]}
  {
    hide SoftTtl;
    var v := w.store[legacy[i]].payload;
    forall j | 0 <= j < i ensures Seen(w, legacy[j], policy).Absent? {}
    assert Seen(w, legacy[i], policy) == Found(v);
    var first := FirstLegacy(w, legacy, policy, 0);
    assert first == i;
    var soft := SoftTtl(policy.ttl, policy.jitter, w.jitter, draw);
    ReadAfterWrite(w.store, key, v, w.now, soft, policy.swr, later);
  }

  /** A call that finds nothing and leaves its fill to nobody does with its factory's outcome: a value is stored for the
      policy's lifetime, None leaves a marker for the negative lifetime or nothing at all, an exception nothing. */
  lemma FilledInFields(w: World, key: Key, legacy: seq<Key>, policy: Policy, factory: Outcome, draw: nat)
    requires w.up && RunsFactory(w, key, legacy, policy)
    ensures var r := CallAlone(w, None, key, legacy, policy, factory, draw);
      && r.answer == Done(factory) && r.store - {key} == w.store - {key}
      && (if factory.Raised? || (factory.v == JNull && policy.negativeTtl <= 0) then r.store == w.store
          else
            && key in r.store
            && var entry := r.store[key];
               if factory.v == JNull
               then
                 && entry.payload.JObj? && "__cg_negative__" in entry.payload.fields
                 && entry.payload.fields["__cg_negative__"] == JBool(true)
                 && w.now + 1000 * policy.negativeTtl <= entry.expires
                 && entry.expires <= w.now + 1000 * (policy.negativeTtl + Max(w.jitter, 0))
               else
                 && (policy.swr <= 0 ==> entry.payload == factory.v)
                 && entry.expires >= w.now + 1000 * (Max(policy.ttl, 1) + Max(policy.swr, 0))
                 && entry.expires <= w.now + 1000 * (Max(policy.swr, 0)
                      + Max(policy.ttl + Max(if policy.jitter == 0 then w.jitter else policy.jitter, 0), 1)))
  {
    hide TryLock, CompareAndDelete, Held, SoftTtl;
  }

  /** A call leaves nobody's lock gone and none of its own behind. */
  lemma LocksAreLeftAsFound(
      w: World, entry: Option<(FutId, Option<Outcome>)>, key: Key, legacy: seq<Key>, policy: Policy, factory: Outcome,
      draw: nat, other: Key)
    ensures Held(CallAlone(w, entry, key, legacy, policy, factory, draw).locks, other, w.now) == Held(w.locks, other, w.now)
  {
    hide Seen, Filled, FilledStore, Moved;
  }

  /** The world a while after a call. */
  function Later(w: World, r: Result, now: int): World {
    w.(store := r.store, locks := r.locks, now := now)
  }

  /** A call finds neither its key nor a legacy key, and joins nobody. */
  predicate RunsFactory(w: World, key: Key, legacy: seq<Key>, policy: Policy) {
    Seen(w, key, policy).Absent? && FirstLegacy(w, legacy, policy, 0) == |legacy|
  }

  /** The value one call fills in is what the next calls are served, whatever their own factories would say, until
      the hard lifetime is over, which is at least the policy's TTL. */
  lemma FilledValueIsServed(
      w: World, key: Key, legacy: seq<Key>, policy: Policy, v: Json, draw: nat, later: int,
      entry: Option<(FutId, Option<Outcome>)>, legacy': seq<Key>, policy': Policy, factory': Outcome, draw': nat)
    requires w.up && v != JNull && Plain(v) && RunsFactory(w, key, legacy, policy)
    requires w.now <= later < w.now + 1000 * (SoftTtl(policy.ttl, policy.jitter, w.jitter, draw) + Max(policy.swr, 0))
    ensures var r := CallAlone(w, None, key, legacy, policy, Value(v), draw);
      var r' := CallAlone(Later(w, r, later), entry, key, legacy', policy', factory', draw');
      r.answer == Done(Value(v)) && r' == Result(Done(Value(v)), r.store, r.locks)
  {
    ReadAfterWrite(w.store, key, v, w.now, SoftTtl(policy.ttl, policy.jitter, w.jitter, draw), policy.swr, later);
  }

  /** A stored None serves nobody: after a factory has said None the next call still runs its own factory. */
  lemma NoneIsNeverServed(
      w: World, key: Key, policy: Policy, draw: nat, later: int, policy': Policy, factory': Outcome, draw': nat)
    requires w.up && RunsFactory(w, key, [], policy) && w.now <= later
    ensures var r := CallAlone(w, None, key, [], policy, Value(JNull), draw);
      r.answer == Done(Value(JNull))
      && CallAlone(Later(w, r, later), None, key, [], policy', factory', draw').answer == Done(factory')
  {
    hide TryLock, CompareAndDelete, Held;
    NegativeEntryIsAbsent(
      w.store, key, w.now, SoftTtl(policy.negativeTtl, 0, w.jitter, draw), later);
  }

  /** A negative entry reads as absent, at any time. */
  lemma NegativeEntryIsAbsent(store: Store, key: Key, now: int, soft: int, later: int)
    ensures LookIn(SetJson(store, key, NegativePayload(now), now, soft, 0), key, later) == Absent
  {
    assert IsNegative(Wrap(NegativePayload(now), now, soft, 0));
  }

  // ---- The object ----

  class Cache {
    var up: bool
    var now: int
    var store: Store
    var locks: Locks
    var nextToken: nat
    var inflight: map<Key, FutId>
    var futs: map<FutId, Option<Outcome>>
    var nextFut: FutId
    const lockTtl: int
    const jitter: int

    constructor (lockTtl: int, jitter: int, up: bool, now: int, store: Store, locks: Locks)
      ensures Valid() && inflight == map[] && futs == map[]
      ensures View() == World(up, now, lockTtl, jitter, store, locks, 0)
    {
      this.lockTtl, this.jitter, this.up, this.now, this.store, this.locks := lockTtl, jitter, up, now, store, locks;
      inflight, futs, nextToken, nextFut := map[], map[], 0, 0;
    }

    ghost function View(): World
      reads this
    {
      World(up, now, lockTtl, jitter, store, locks, nextToken)
    }

    /** Futures are numbered in order, and every table entry names one. */
    ghost predicate Valid()
      reads this
    {
      (forall f :: f in futs ==> f < nextFut) && forall k :: k in inflight ==> inflight[k] in futs
    }

    /** The registered future of a key. */
    ghost function Registered(key: Key): Option<(FutId, Option<Outcome>)>
      requires Valid()
      reads this
    {
      if key in inflight then Some((inflight[key], futs[inflight[key]])) else None
    }

    method ReadJson(key: Key, policy: Policy) returns (l: Looked)
      ensures l == Seen(View(), key, policy)
    {
      if !up {
        if policy.failClosed { return Fails; }
        return Absent;
      }
      if key !in store || now >= store[key].expires { return Absent; }
      var decoded := store[key].payload;
      if IsNegative(decoded) { return Absent; }
      var r := Unwrap(decoded, now);
      if r.Broken? { return Fails; }
      if r.value == JNull { return Absent; }
      return Found(r.value);
    }

    /** `set_json`: returns whether it raised. */
    method WriteJson(key: Key, v: Json, policy: Policy, draw: nat) returns (raised: bool)
      modifies this`store
      ensures store == if up then Put(old(store), WrittenNow(old(View()), key, v, policy, draw)) else old(store)
      ensures raised == (!up && policy.failClosed)
    {
      var soft := SoftTtl(policy.ttl, policy.jitter, jitter, draw);
      if up {
        var hard := soft + Max(policy.swr, 0);
        store := store[key := Entry(Wrap(v, now, soft, policy.swr), now + 1000 * hard)];
        return false;
      }
      return policy.failClosed;
    }

    method Delete(key: Key)
      modifies this`store
      ensures store == if up then old(store) - {key} else old(store)
    {
      if up { store := store - {key}; }
    }

    method AcquireLock(key: Key) returns (token: Option<nat>)
      modifies this`locks, this`nextToken
      ensures nextToken == old(nextToken) + 1
      ensures token == if up && !Held(old(locks), key, now) then Some(old(nextToken)) else None
      ensures locks == if up then TryLock(old(locks), key, old(nextToken), now, lockTtl) else old(locks)
      ensures token.Some? <==> up && (key !in old(locks) || old(locks)[key].expires <= now)
      ensures locks == if token.None? then old(locks)
                       else old(locks)[key := Lock(token.value, now + if lockTtl < 1 then 1 else lockTtl)]
    {
      var drawn := nextToken;
      nextToken := nextToken + 1;
      if !up || (key in locks && now < locks[key].expires) { return None; }
      locks := locks[key := Lock(drawn, now + Max(lockTtl, 1))];
      return Some(drawn);
    }

    method ReleaseLock(key: Key, token: nat)
      modifies this`locks
      ensures locks == if up then CompareAndDelete(old(locks), key, token, now) else old(locks)
      ensures key !in locks <==>
        key !in old(locks) || (up && now < old(locks)[key].expires && old(locks)[key].token == token)
      ensures locks - {key} == old(locks) - {key} && (key in locks ==> locks[key] == old(locks)[key])
    {
      if up && key in locks && now < locks[key].expires && locks[key].token == token {
        locks := locks - {key};
      }
    }

    method Fill(key: Key, policy: Policy, factory: Outcome, draw: nat) returns (out: Outcome)
      modifies this`store
      ensures out == Filled(old(View()), policy, factory)
      ensures store == FilledStore(old(View()), key, policy, factory, draw)
    {
      if factory.Raised? { return factory; }
      var raised := false;
      if factory.v == JNull {
        if policy.negativeTtl > 0 { raised := WriteJson(key, NegativePayload(now), NegativePolicy(policy), draw); }
      } else {
        raised := WriteJson(key, factory.v, policy, draw);
      }
      out := if raised then Raised(CacheError) else factory;
    }

    /** Under the lock, or after waiting for whoever holds it; nobody else runs meanwhile. */
    method DistributedFill(key: Key, policy: Policy, factory: Outcome, draw: nat) returns (out: Outcome)
      modifies this`store, this`locks, this`nextToken
      ensures Result(Done(out), store, locks) == LockedFill(old(View()), key, policy, factory, draw)
    {
      hide Seen, Filled, FilledStore, TryLock, CompareAndDelete, Held;
      ghost var w := View();
      var token := AcquireLock(key);
      if token.Some? {
        out := Fill(key, policy, factory, draw);
        LockIsBesideTheStore(w, View().(store := w.store), key, policy, factory, draw);
        ReleaseLock(key, token.value);
        return;
      }
      LockIsBesideTheStore(w, View(), key, policy, factory, draw);
      KeptLocks(w, key);
      var cached := ReadJson(key, policy);
      match cached
      case Found(v) => return Value(v);
      case Fails => return Raised(CacheError);
      case Absent => out := Fill(key, policy, factory, draw);
    }

    /** The loop over the legacy keys: the first one that answers decides, and a found value is moved. */
    method MoveLegacy(key: Key, legacy: seq<Key>, policy: Policy, draw: nat) returns (l: Looked)
      modifies this`store
      ensures var w := old(View());
        var i := FirstLegacy(w, legacy, policy, 0);
        && l == (if i < |legacy| then Seen(w, legacy[i], policy) else Absent)
        && store == if l.Found? then Moved(w, key, legacy[i], l.v, policy, draw) else old(store)
    {
      hide Put;
      var i := 0;
      while i < |legacy|
        invariant 0 <= i <= |legacy|
        invariant FirstLegacy(View(), legacy, policy, 0) == FirstLegacy(View(), legacy, policy, i)
        invariant store == old(store)
      {
        l := ReadJson(legacy[i], policy);
        match l {
          case Fails => return;
          case Found(v) =>
            var raised := WriteJson(key, v, policy, draw);
            Delete(legacy[i]);
            return;
          case Absent =>
        }
        i := i + 1;
      }
      l := Absent;
    }

    /** The leader's part: register a future, fill, resolve it, pop the entry. */
    method Lead(key: Key, policy: Policy, factory: Outcome, draw: nat) returns (out: Outcome)
      requires Valid() && key !in inflight
      modifies this`store, this`locks, this`nextToken, this`inflight, this`futs, this`nextFut
      ensures Valid() && inflight == old(inflight) && futs == old(futs)[old(nextFut) := Some(out)]
      ensures Result(Done(out), store, locks) == LockedFill(old(View()), key, policy, factory, draw)
    {
      hide LockedFill;
      var waiter := nextFut;
      nextFut := nextFut + 1;
      futs := futs[waiter := None];
      inflight := inflight[key := waiter];
      out := DistributedFill(key, policy, factory, draw);
      futs := futs[waiter := Some(out)];
      inflight := inflight - {key};
    }

    /** Main result: the call does what `CallAlone` says.  A call that waits has joined its process's entry for
        the key; no entry of its own is left behind, and a future it led is resolved with what it returned. */
    method GetOrSet(key: Key, legacy: seq<Key>, policy: Policy, factory: Outcome, draw: nat) returns (answer: Answer)
      requires Valid()
      modifies this`store, this`locks, this`nextToken, this`inflight, this`futs, this`nextFut
      ensures Valid() && inflight == old(inflight)
      ensures answer.Waits? ==> key in inflight && inflight[key] == answer.fut && futs[answer.fut].None?
      ensures futs == old(futs) || (answer.Done? && futs == old(futs)[old(nextFut) := Some(answer.out)])
      ensures Result(answer, store, locks)
        == CallAlone(old(View()), old(Registered(key)), key, legacy, policy, factory, draw)
    {
      hide LockedFill, Filled, FilledStore, Moved, FirstLegacy;
      var cached := ReadJson(key, policy);
      match cached {
        case Found(v) => return Done(Value(v));
        case Fails => return Done(Raised(CacheError));
        case Absent =>
      }
      var moved := MoveLegacy(key, legacy, policy, draw);
      match moved {
        case Found(v) => return Done(Value(v));
        case Fails => return Done(Raised(CacheError));
        case Absent =>
      }
      var out;
      if !policy.singleflight {
        out := Fill(key, policy, factory, draw);
        return Done(out);
      }
      if key in inflight {
        var waiter := inflight[key];
        return if futs[waiter].Some? then Done(futs[waiter].value) else Waits(waiter);
      }
      out := Lead(key, policy, factory, draw);
      answer := Done(out);
    }
  }

  /** Reads and fills look at the store, not at the locks. */
  lemma LockIsBesideTheStore(w: World, w': World, key: Key, policy: Policy, factory: Outcome, draw: nat)
    requires w'.up == w.up && w'.now == w.now && w'.jitter == w.jitter && w'.store == w.store
    ensures Seen(w', key, policy) == Seen(w, key, policy) && Filled(w', policy, factory) == Filled(w, policy, factory)
    ensures FilledStore(w', key, policy, factory, draw) == FilledStore(w, key, policy, factory, draw)
  {}

  /** An attempt that fails leaves the locks alone. */
  lemma KeptLocks(w: World, key: Key)
    requires !w.up || Held(w.locks, key, w.now)
    ensures (if w.up then TryLock(w.locks, key, w.token, w.now, w.lockTtl) else w.locks) == w.locks
  {}
}
