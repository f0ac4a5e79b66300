/** The distributed half of `get_or_set`: its use of the token lock, seen as the token-lock protocol. */
module SingleFlightLocks {
  import opened CacheSupport
  import opened CacheSingleflight
  import opened Wrappers
  import opened SingleFlight
  import Protocol = TokenLock

  /** The token a task holds, from winning the lock until it has released it. */
  function TokenOf(key: Key, pc: Pc): Option<Protocol.Holder> {
    match pc
    case Run(Locked(_, token, since)) => Some(Protocol.Holder(key, token, since))
    case Save(Locked(_, token, since), _) => Some(Protocol.Holder(key, token, since))
    case Unlock(_, token, since, _) => Some(Protocol.Holder(key, token, since))
    case _ => None
  }

  // ---- One key's view ----

  /** The holders of one key's lock. */
  function Holders(tasks: map<TaskId, Task>, key: Key): map<TaskId, Protocol.Holder> {
    map t | t in tasks && tasks[t].key == key && TokenOf(key, tasks[t].pc).Some? :: TokenOf(key, tasks[t].pc).value
  }

  /** One key's lock, and no other. */
  function Only(locks: Locks, key: Key): Locks {
    map k | k in locks && k == key :: locks[k]
  }

  function Project(s: State, key: Key): Protocol.State {
    Protocol.State(s.now, s.lockTtl, Only(s.redis.locks, key), s.redis.nextToken, Holders(s.tasks, key))
  }

  /** The protocol steps a step of the cache amounts to for one key: none, or one.  A lock taken under another key
      only uses up a token. */
  function Shadow(s: State, step: Step, key: Key): seq<Protocol.Step>
    requires Enabled(s, step)
  {
    match step
    case Tick(d) => [Protocol.Tick(d)]
    case Advance(t, io) =>
      var task := s.tasks[t];
      if task.pc.Acquire? && task.key == key then [Protocol.Attempt(t, key, !io.error || io.applied, !io.error)]
      else if task.pc.Acquire? then [Protocol.Attempt(t, key, false, false)]
      else if task.pc.Unlock? && task.key == key then [Protocol.Release(t, io.applied)]
      else []
    case _ => []
  }

  lemma HoldersMoved(tasks: map<TaskId, Task>, t: TaskId, pc: Pc, key: Key)
    requires t in tasks
    ensures var held := TokenOf(key, pc);
      Holders(tasks[t := tasks[t].(pc := pc)], key) ==
        if tasks[t].key == key && held.Some? then Holders(tasks, key)[t := held.value] else Holders(tasks, key) - {t}
  {}

  lemma OthersKeepLock(locks: Locks, key: Key, other: Key, token: nat, now: int, ttl: int)
    requires other != key
    ensures Only(TryLock(locks, other, token, now, ttl), key) == Only(locks, key)
    ensures Only(CompareAndDelete(locks, other, token, now), key) == Only(locks, key)
    ensures Only(locks - {other}, key) == Only(locks, key)
  {}

  lemma OwnLock(locks: Locks, key: Key, token: nat, now: int, ttl: int)
    ensures Only(TryLock(locks, key, token, now, ttl), key) == TryLock(Only(locks, key), key, token, now, ttl)
    ensures Only(CompareAndDelete(locks, key, token, now), key) == CompareAndDelete(Only(locks, key), key, token, now)
    ensures Held(Only(locks, key), key, now) == Held(locks, key, now)
  {}

  /** What one step amounts to under the protocol. */
  ghost predicate Refines(s: State, step: Step, key: Key)
    requires Enabled(s, step)
  {
    var shadow := Shadow(s, step, key);
    var p := Project(s, key);
    && (forall i :: 0 <= i < |shadow| ==> Protocol.Enabled(p, shadow[i]))
    && Project(Next(s, step), key) == if shadow == [] then p else Protocol.Next(p, shadow[0])
  }

  lemma AcquireRefines(s: State, t: TaskId, io: Io, key: Key)
    requires Enabled(s, Advance(t, io)) && s.tasks[t].pc.Acquire? && s.tasks[t].key == key
    ensures Refines(s, Advance(t, io), key)
  {
    var won := !io.error && !Held(s.redis.locks, key, s.now);
    HoldersMoved(s.tasks, t, NextPc(s, s.tasks[t], io), key);
    OwnLock(s.redis.locks, key, s.redis.nextToken, s.now, s.lockTtl);
    assert t !in Holders(s.tasks, key);
    assert TokenOf(key, NextPc(s, s.tasks[t], io)) ==
      if won then Some(Protocol.Holder(key, s.redis.nextToken, s.now)) else None;
    hide NextPc, TokenOf, NextStore, NextTable, NextLog, Look, Holders, Only, TryLock, Held;
  }

  lemma UnlockRefines(s: State, t: TaskId, io: Io, key: Key)
    requires Enabled(s, Advance(t, io)) && s.tasks[t].pc.Unlock? && s.tasks[t].key == key
    ensures Refines(s, Advance(t, io), key)
  {
    HoldersMoved(s.tasks, t, NextPc(s, s.tasks[t], io), key);
    OwnLock(s.redis.locks, key, s.tasks[t].pc.token, s.now, s.lockTtl);
    assert Holders(s.tasks, key)[t] == TokenOf(key, s.tasks[t].pc).value;
    hide NextStore, NextTable, NextLog, Look, Holders, Only, CompareAndDelete;
  }

  /** A lock step under another key. */
  lemma ElsewhereRefines(s: State, t: TaskId, io: Io, key: Key)
    requires Enabled(s, Advance(t, io)) && (s.tasks[t].pc.Acquire? || s.tasks[t].pc.Unlock?) && s.tasks[t].key != key
    ensures Refines(s, Advance(t, io), key)
  {
    var task := s.tasks[t];
    HoldersMoved(s.tasks, t, NextPc(s, task, io), key);
    OthersKeepLock(s.redis.locks, key, task.key, s.redis.nextToken, s.now, s.lockTtl);
    if task.pc.Unlock? { OthersKeepLock(s.redis.locks, key, task.key, task.pc.token, s.now, s.lockTtl); }
    assert t !in Holders(s.tasks, key);
    hide NextStore, NextTable, NextLog, NextPc, Look, Holders, Only, TryLock, CompareAndDelete;
  }

  /** Any other step of a task keeps its token. */
  lemma TokenKept(s: State, t: TaskId, io: Io)
    requires Enabled(s, Advance(t, io)) && !s.tasks[t].pc.Acquire? && !s.tasks[t].pc.Unlock?
    ensures forall key :: TokenOf(key, NextPc(s, s.tasks[t], io)) == TokenOf(key, s.tasks[t].pc)
    ensures NextLocks(s, s.tasks[t], io) == s.redis.locks
  {
    hide Look;
  }

  lemma OthersRefine(s: State, t: TaskId, io: Io, key: Key)
    requires Enabled(s, Advance(t, io)) && !s.tasks[t].pc.Acquire? && !s.tasks[t].pc.Unlock?
    ensures Refines(s, Advance(t, io), key)
  {
    TokenKept(s, t, io);
    HoldersMoved(s.tasks, t, NextPc(s, s.tasks[t], io), key);
    hide NextStore, NextTable, NextLog, NextPc, NextLocks, TokenOf, Only;
  }

  /** One step of the cache is at most one step of the token lock of a key, as long as nobody deletes that very
      lock key. */
  lemma StepRefines(s: State, step: Step, key: Key)
    requires Enabled(s, step) && step != DropLock(key)
    ensures Refines(s, step, key)
  {
    match step
    case Arrive(t, _, _, _, _) => assert Holders(Next(s, step).tasks, key) == Holders(s.tasks, key);
    case DropLock(other) => OthersKeepLock(s.redis.locks, key, other, 0, s.now, s.lockTtl);
    case Advance(t, io) =>
      hide Refines;
      if s.tasks[t].pc.Acquire? || s.tasks[t].pc.Unlock? {
        if s.tasks[t].key != key { ElsewhereRefines(s, t, io, key); }
        else if s.tasks[t].pc.Acquire? { AcquireRefines(s, t, io, key); }
        else { UnlockRefines(s, t, io, key); }
      } else {
        OthersRefine(s, t, io, key);
      }
    case _ =>
  }

  function ShadowRun(s: State, steps: seq<Step>, key: Key): seq<Protocol.Step>
    requires Legal(s, steps)
    decreases |steps|
  {
    if |steps| == 0 then [] else Shadow(s, steps[0], key) + ShadowRun(Next(s, steps[0]), steps[1..], key)
  }

  /** Every run of the cache that deletes no lock of this key is a run of its token-lock protocol. */
  lemma {:induction false} RunRefines(s: State, steps: seq<Step>, key: Key)
    requires Legal(s, steps) && DropLock(key) !in steps
    ensures Protocol.Legal(Project(s, key), ShadowRun(s, steps, key))
    ensures Protocol.Exec(Project(s, key), ShadowRun(s, steps, key)) == Project(Exec(s, steps), key)
    decreases |steps|
  {
    hide Project, Next;
    if |steps| != 0 {
      var s' := Next(s, steps[0]);
      var rest := ShadowRun(s', steps[1..], key);
      assert steps[0] in steps && forall x :: x in steps[1..] ==> x in steps;
      StepRefines(s, steps[0], key);
      RunRefines(s', steps[1..], key);
      var shadow := Shadow(s, steps[0], key);
      if shadow == [] {
        assert shadow + rest == rest;
      } else {
        assert (shadow + rest)[0] == shadow[0] && (shadow + rest)[1..] == rest;
      }
    }
  }

  // ---- Main results ----

  /** The task is inside the locked section, with this token since then. */
  predicate Inside(s: State, t: TaskId, h: Protocol.Holder) {
    && t in s.tasks && s.tasks[t].key == h.key
    && match s.tasks[t].pc
       case Run(Locked(_, token, since)) => token == h.token && since == h.since
       case Save(Locked(_, token, since), _) => token == h.token && since == h.since
       case Unlock(_, token, since, _) => token == h.token && since == h.since
       case _ => false
  }

  lemma InsideMeansHolding(s: State, t: TaskId, h: Protocol.Holder)
    ensures Inside(s, t, h) <==> var p := Project(s, h.key); t in p.holders && p.holders[t] == h
  {}

  /** Main result.  In every run that deletes no lock of this key: of two tasks, in any processes, inside the
      locked section of the key at once, at least one took the lock `lockTtl` milliseconds ago, and one millisecond
      at least. */
  lemma LockedSectionsAreExclusive(
      init: State, steps: seq<Step>, t: TaskId, a: Protocol.Holder, u: TaskId, b: Protocol.Holder)
    requires Init(init) && Legal(init, steps) && DropLock(a.key) !in steps
    requires t != u && a.key == b.key && Inside(Exec(init, steps), t, a) && Inside(Exec(init, steps), u, b)
    ensures var now := Exec(init, steps).now;
      (a.since + init.lockTtl <= now && a.since < now) || (b.since + init.lockTtl <= now && b.since < now)
  {
    hide Exec, Legal;
    RunRefines(init, steps, a.key);
    assert Holders(init.tasks, a.key) == map[];
    InsideMeansHolding(Exec(init, steps), t, a);
    InsideMeansHolding(Exec(init, steps), u, b);
    hide Inside, Holders;
    Protocol.TimedExclusion(Project(init, a.key), ShadowRun(init, steps, a.key), t, u);
  }

  /** A task gets into the locked section exactly when nobody's lock is there and the answer arrives; the lock is
      then there for `lockTtl` milliseconds. */
  lemma EntersExactlyWhenFree(s: State, t: TaskId, io: Io)
    requires t in s.tasks && s.tasks[t].pc.Acquire?
    ensures var key := s.tasks[t].key;
      var s' := Next(s, Advance(t, io));
      var free := key !in s.redis.locks || s.redis.locks[key].expires <= s.now;
      && (Inside(s', t, Protocol.Holder(key, s.redis.nextToken, s.now)) <==> !io.error && free)
      && (free && (!io.error || io.applied) ==>
            && key in s'.redis.locks
            && s'.redis.locks[key] == Lock(s.redis.nextToken, s.now + if s.lockTtl < 1 then 1 else s.lockTtl))
  {
    hide Look, NextStore, NextTable, NextLog;
  }

  /** Main result.  From the moment a task entered the locked section of a key, for `lockTtl` milliseconds or until
      it leaves, nobody else enters: who is inside beside it was inside before. */
  lemma NobodyEntersMeanwhile(
      init: State, steps: seq<Step>, t: TaskId, io: Io, h: Protocol.Holder, rest: seq<Step>, u: TaskId, b: Protocol.Holder)
    requires Init(init) && Legal(init, steps) && DropLock(h.key) !in steps && DropLock(h.key) !in rest
    requires var s := Exec(init, steps); Enabled(s, Advance(t, io)) && s.tasks[t].pc.Acquire? && h.since == s.now
    requires var s' := Next(Exec(init, steps), Advance(t, io)); Inside(s', t, h) && Legal(s', rest)
    requires var r := Exec(Next(Exec(init, steps), Advance(t, io)), rest);
      && r.now < h.since + init.lockTtl && Inside(r, t, h)
      && u != t && b.key == h.key && Inside(r, u, b)
    ensures Inside(Exec(init, steps), u, b)
  {
    var s := Exec(init, steps);
    var s' := Next(s, Advance(t, io));
    var r := Exec(s', rest);
    hide Exec, Legal;
    assert Holders(init.tasks, h.key) == map[];
    RunRefines(init, steps, h.key);
    StepRefines(s, Advance(t, io), h.key);
    RunRefines(s', rest, h.key);
    InsideMeansHolding(s, u, b);
    InsideMeansHolding(s', t, h);
    InsideMeansHolding(r, t, h);
    InsideMeansHolding(r, u, b);
    assert !io.error by { hide NextStore, NextTable, NextLog, NextLocks; }
    assert Shadow(s, Advance(t, io), h.key) == [Protocol.Attempt(t, h.key, true, true)];
    hide Inside, Holders, Next, Shadow;
    Protocol.GrantExcludes(
      Project(init, h.key), ShadowRun(init, steps, h.key), t, h.key, ShadowRun(s', rest, h.key), u);
  }

  lemma {:induction false} TtlStays(s: State, steps: seq<Step>)
    requires Legal(s, steps)
    ensures Exec(s, steps).lockTtl == s.lockTtl
    decreases |steps|
  {
    if |steps| != 0 { TtlStays(Next(s, steps[0]), steps[1..]); }
  }

  /** Deleting the lock key of a fresh holder breaks the exclusion at once: the next task that asks for the lock
      gets it, and both are inside with locks whose time is not over.  `invalidate_owner` deletes such
      keys. */
  lemma DroppedLockAdmitsSecondHolder(s: State, t: TaskId, h: Protocol.Holder, u: TaskId, f: FutId, io: Io)
    requires Inside(s, t, h) && s.now < h.since + s.lockTtl
    requires u in s.tasks && t != u && s.tasks[u].key == h.key && s.tasks[u].pc == Acquire(f) && !io.error
    ensures var s' := Next(Next(s, DropLock(h.key)), Advance(u, io));
      && Inside(s', t, h) && Inside(s', u, Protocol.Holder(h.key, s.redis.nextToken, s.now))
      && s'.now < h.since + s.lockTtl && s'.now == s.now
  {
    hide NextStore, NextTable, NextLog, Look;
  }

  // ---- Such a run exists ----

  lemma {:induction false} ExecAppends(s: State, a: seq<Step>, b: seq<Step>)
    requires Legal(s, a) && Legal(Exec(s, a), b)
    ensures Legal(s, a + b) && Exec(s, a + b) == Exec(Exec(s, a), b)
    decreases |a|
  {
    hide Next, Enabled;
    if |a| == 0 {
      assert a + b == b;
    } else {
      assert (a + b)[0] == a[0] && (a + b)[1..] == a[1..] + b;
      ExecAppends(Next(s, a[0]), a[1..], b);
    }
  }

  lemma OneStep(s: State, step: Step)
    requires Enabled(s, step)
    ensures Legal(s, [step]) && Exec(s, [step]) == Next(s, step)
  {
    assert [step][1..] == [];
  }

  /** One more step of a run. */
  lemma Extend(init: State, steps: seq<Step>, step: Step)
    requires Legal(init, steps) && Enabled(Exec(init, steps), step)
    ensures Legal(init, steps + [step]) && Exec(init, steps + [step]) == Next(Exec(init, steps), step)
  {
    hide Next, Enabled, Exec, Legal;
    OneStep(Exec(init, steps), step);
    ExecAppends(init, steps, [step]);
  }

  /** A call that finds nothing and joins nobody gets to ask for the lock. */
  lemma AsksForLock(init: State, steps: seq<Step>, t: TaskId, io: Io) returns (longer: seq<Step>)
    requires Legal(init, steps) && !io.error
    requires var s := Exec(init, steps);
      && t in s.tasks && s.tasks[t].pc.Lookup? && s.tasks[t].legacy == [] && s.tasks[t].policy.singleflight
      && s.redis.store == map[] && SlotOf(s.tasks[t]) !in s.table.inflight
    ensures Legal(init, longer)
    ensures var s, s' := Exec(init, steps), Exec(init, longer);
      && s'.tasks == s.tasks[t := s.tasks[t].(pc := Acquire(s.table.nextFut))] && s'.redis == s.redis
      && s'.now == s.now && s'.lockTtl == s.lockTtl
      && s'.table.inflight == s.table.inflight[SlotOf(s.tasks[t]) := s.table.nextFut]
  {
    hide Exec, Legal;
    var s := Exec(init, steps);
    Extend(init, steps, Advance(t, io));
    var one := steps + [Advance(t, io)];
    assert Exec(init, one).tasks == s.tasks[t := s.tasks[t].(pc := Legacy(0))];
    Extend(init, one, Advance(t, io));
    var two := one + [Advance(t, io)];
    assert Exec(init, two).tasks == s.tasks[t := s.tasks[t].(pc := Register)];
    Extend(init, two, Advance(t, io));
    longer := two + [Advance(t, io)];
  }

  /** A call that asks for a free lock gets it. */
  lemma TakesLock(init: State, steps: seq<Step>, t: TaskId, io: Io) returns (longer: seq<Step>)
    requires Legal(init, steps) && !io.error && t in Exec(init, steps).tasks
    requires var s := Exec(init, steps); s.tasks[t].pc.Acquire? && s.redis.locks == map[]
    ensures Legal(init, longer)
    ensures var s, s' := Exec(init, steps), Exec(init, longer);
      && s'.tasks == s.tasks[t := s.tasks[t].(pc := Run(Locked(s.tasks[t].pc.fut, s.redis.nextToken, s.now)))]
      && s'.redis.store == s.redis.store && s'.now == s.now && s'.lockTtl == s.lockTtl
      && s'.table.inflight == s.table.inflight
  {
    hide Exec, Legal;
    Extend(init, steps, Advance(t, io));
    longer := steps + [Advance(t, io)];
  }

  /** Two processes, one key, one deleted lock key, two fresh holders. */
  lemma DropBreaksExclusion() returns (init: State, steps: seq<Step>, a: Protocol.Holder, b: Protocol.Holder)
    ensures Init(init) && Legal(init, steps) && a.key == b.key
    ensures var s := Exec(init, steps);
      Inside(s, 0, a) && Inside(s, 1, b) && s.now < a.since + init.lockTtl && s.now < b.since + init.lockTtl
  {
    hide Exec, Legal, NextPc, NextStore, NextLog, NextTable, NextLocks;
    var io := Io(false, true, 0, Value(JNull));
    var policy := Policy(60, 0, true, false, 0, 0);
    init := State(0, 15_000, 0, Redis(map[], map[], 0), Table(map[], map[], map[], 0), map[],
                  Log({}, {}, {}, {}, {}, {}));
    Begins(init);
    steps := TwoArrive(init, policy);
    steps := AsksForLock(init, steps, 0, io);
    steps := TakesLock(init, steps, 0, io);
    steps := AsksForLock(init, steps, 1, io);
    var s := Exec(init, steps);
    a, b := TokenOf("k", s.tasks[0].pc).value, Protocol.Holder("k", s.redis.nextToken, s.now);
    DroppedLockAdmitsSecondHolder(s, 0, a, 1, s.tasks[1].pc.fut, io);
    Extend(init, steps, DropLock("k"));
    Extend(init, steps + [DropLock("k")], Advance(1, io));
    steps := steps + [DropLock("k")] + [Advance(1, io)];
  }

  lemma Begins(init: State)
    ensures Legal(init, []) && Exec(init, []) == init
  {}

  lemma TwoArrive(init: State, policy: Policy) returns (steps: seq<Step>)
    requires init.tasks == map[]
    ensures Legal(init, steps)
    ensures var s := Exec(init, steps);
      && s.tasks == map[0 := Task(0, "k", [], policy, Lookup), 1 := Task(1, "k", [], policy, Lookup)]
      && s.now == init.now && s.lockTtl == init.lockTtl && s.redis == init.redis && s.table == init.table
  {
    hide Exec, Legal;
    Begins(init);
    Extend(init, [], Arrive(0, 0, "k", [], policy));
    Extend(init, [] + [Arrive(0, 0, "k", [], policy)], Arrive(1, 1, "k", [], policy));
    steps := [] + [Arrive(0, 0, "k", [], policy)] + [Arrive(1, 1, "k", [], policy)];
  }
}
