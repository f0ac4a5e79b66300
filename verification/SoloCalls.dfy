/** A call of the `SingleFlight` protocol that nothing interferes with does what the sequential `get_or_set` does. */
module SoloCalls {
  import opened CacheSupport
  import opened CacheSingleflight
  import opened Wrappers
  import opened SingleFlight
  import opened TenantCache
  import Leaders = SingleFlightLeaders

  /** One task steps, and nobody else, until it has finished or must wait. */
  function Solo(s: State, t: TaskId, io: Io): (end: State)
    requires t in s.tasks
    ensures t in end.tasks
    decreases Leaders.Rank(s.tasks[t])
  {
    if Enabled(s, Advance(t, io)) then
      Leaders.StepLowersRank(s, t, io);
      Solo(Next(s, Advance(t, io)), t, io)
    else s
  }

  /** Redis answers all along, or raises all along without effect. */
  function Steady(up: bool, draw: nat, factory: Outcome): Io {
    Io(!up, up, draw, factory)
  }

  function WorldOf(s: State, up: bool): World {
    World(up, s.now, s.lockTtl, s.jitter, s.redis.store, s.redis.locks, s.redis.nextToken)
  }

  /** What counts of the end: where the task is, and what Redis and the `_inflight` tables hold. */
  datatype End = End(pc: Pc, store: Store, locks: Locks, inflight: map<(Proc, Key), FutId>)

  function EndOf(s: State, t: TaskId): End
    requires t in s.tasks
  {
    End(s.tasks[t].pc, s.redis.store, s.redis.locks, s.table.inflight)
  }

  function SoloEnd(s: State, t: TaskId, io: Io): End
    requires t in s.tasks
  {
    EndOf(Solo(s, t, io), t)
  }

  /** Everything one step changes, as far as the task's later steps can see. */
  lemma OneStep(s: State, t: TaskId, io: Io) returns (s': State)
    requires Enabled(s, Advance(t, io))
    ensures s' == Next(s, Advance(t, io)) && t in s'.tasks
    ensures SoloEnd(s, t, io) == SoloEnd(s', t, io)
    ensures s'.tasks[t] == s.tasks[t].(pc := NextPc(s, s.tasks[t], io))
    ensures s'.now == s.now && s'.lockTtl == s.lockTtl && s'.jitter == s.jitter
    ensures s'.redis.store == NextStore(s, s.tasks[t], io) && s'.redis.locks == NextLocks(s, s.tasks[t], io)
    ensures s'.table == NextTable(s.table, t, s.tasks[t])
  {
    hide NextPc, NextStore, NextLocks, NextTable, NextLog;
    s' := Next(s, Advance(t, io));
  }

  lemma FinishedStops(s: State, t: TaskId, io: Io)
    requires t in s.tasks && s.tasks[t].pc.Finished?
    ensures SoloEnd(s, t, io) == EndOf(s, t)
  {}

  // ---- From the end backwards ----

  lemma FromResolve(s: State, t: TaskId, io: Io)
    requires t in s.tasks && s.tasks[t].pc.Resolve?
    ensures SoloEnd(s, t, io) ==
      End(Finished(s.tasks[t].pc.out), s.redis.store, s.redis.locks, s.table.inflight - {SlotOf(s.tasks[t])})
  {
    hide Solo, SoloEnd;
    var s1 := OneStep(s, t, io);
    var s2 := OneStep(s1, t, io);
    FinishedStops(s2, t, io);
  }

  /** What a task's protection does once its factory phase is over. */
  function Left(hold: Hold, locks: Locks, key: Key, now: int, up: bool): Locks {
    if hold.Locked? && up then CompareAndDelete(locks, key, hold.token, now) else locks
  }

  function Popped(hold: Hold, inflight: map<(Proc, Key), FutId>, slot: (Proc, Key)): map<(Proc, Key), FutId> {
    if hold.Solo? then inflight else inflight - {slot}
  }

  lemma FromLeave(s: State, t: TaskId, up: bool, draw: nat, factory: Outcome, hold: Hold, out: Outcome)
    requires t in s.tasks && s.tasks[t].pc == Leave(hold, out)
    ensures SoloEnd(s, t, Steady(up, draw, factory)) ==
      End(Finished(out), s.redis.store, Left(hold, s.redis.locks, s.tasks[t].key, s.now, up),
          Popped(hold, s.table.inflight, SlotOf(s.tasks[t])))
  {
    hide Solo, SoloEnd, CompareAndDelete;
    var io := Steady(up, draw, factory);
    match hold
    case Solo => FinishedStops(s, t, io);
    case Leader(f) => FromResolve(s, t, io);
    case Locked(_, _, _) =>
      var s1 := OneStep(s, t, io);
      FromResolve(s1, t, io);
  }

  /** Factory, write, and the way out. */
  lemma FromRun(s: State, t: TaskId, up: bool, draw: nat, factory: Outcome, hold: Hold)
    requires t in s.tasks && s.tasks[t].pc == Run(hold) && (factory.Raised? ==> factory.error.FactoryError?)
    ensures var task := s.tasks[t];
      var w := WorldOf(s, up);
      SoloEnd(s, t, Steady(up, draw, factory)) ==
        End(Finished(Filled(w, task.policy, factory)), FilledStore(w, task.key, task.policy, factory, draw),
            Left(hold, s.redis.locks, task.key, s.now, up), Popped(hold, s.table.inflight, SlotOf(task)))
  {
    hide Solo, SoloEnd, Put, Left, Popped, Leave;
    var io := Steady(up, draw, factory);
    var s1 := OneStep(s, t, io);
    if factory.Raised? {
      FromLeave(s1, t, up, draw, factory, hold, factory);
    } else {
      var s2 := OneStep(s1, t, io);
      FromLeave(s2, t, up, draw, factory, hold, Filled(WorldOf(s, up), s.tasks[t].policy, factory));
    }
  }

  lemma LookIsSeen(s: State, up: bool, key: Key, policy: Policy, draw: nat, factory: Outcome)
    ensures Look(s, key, policy, Steady(up, draw, factory)) == Seen(WorldOf(s, up), key, policy)
  {}

  lemma FromAcquire(s: State, t: TaskId, up: bool, draw: nat, factory: Outcome)
    requires t in s.tasks && s.tasks[t].pc.Acquire? && (factory.Raised? ==> factory.error.FactoryError?)
    ensures var task := s.tasks[t];
      var r := LockedFill(WorldOf(s, up), task.key, task.policy, factory, draw);
      r.answer.Done? && SoloEnd(s, t, Steady(up, draw, factory)) ==
        End(Finished(r.answer.out), r.store, r.locks, s.table.inflight - {SlotOf(task)})
  {
    hide Solo, SoloEnd, Seen, Filled, FilledStore, Look, TryLock, CompareAndDelete, Held;
    var io := Steady(up, draw, factory);
    var task := s.tasks[t];
    var w := WorldOf(s, up);
    var s1 := OneStep(s, t, io);
    LockIsBesideTheStore(w, WorldOf(s1, up), task.key, task.policy, factory, draw);
    if s1.tasks[t].pc.Run? {
      FromRun(s1, t, up, draw, factory, s1.tasks[t].pc.hold);
    } else {
      KeptLocks(w, task.key);
      LookIsSeen(s1, up, task.key, task.policy, draw, factory);
      var s2 := OneStep(s1, t, io);
      LockIsBesideTheStore(w, WorldOf(s2, up), task.key, task.policy, factory, draw);
      if s2.tasks[t].pc.Run? { FromRun(s2, t, up, draw, factory, s2.tasks[t].pc.hold); } else { FromResolve(s2, t, io); }
    }
  }

  /** The future registered for the task's slot, and what it has been resolved with. */
  function EntryOf(s: State, task: Task): Option<(FutId, Option<Outcome>)> {
    if SlotOf(task) in s.table.inflight && s.table.inflight[SlotOf(task)] in s.table.futs
    then Some((s.table.inflight[SlotOf(task)], s.table.futs[s.table.inflight[SlotOf(task)]])) else None
  }

  /** Where a call that got this answer stands. */
  function PcOf(answer: Answer): Pc {
    match answer
    case Done(out) => Finished(out)
    case Waits(f) => Join(f)
  }

  lemma FromRegister(s: State, t: TaskId, up: bool, draw: nat, factory: Outcome)
    requires t in s.tasks && s.tasks[t].pc.Register? && (factory.Raised? ==> factory.error.FactoryError?)
    requires SlotOf(s.tasks[t]) in s.table.inflight ==> s.table.inflight[SlotOf(s.tasks[t])] in s.table.futs
    ensures var task := s.tasks[t];
      var entry := EntryOf(s, task);
      var r := if entry.Some? then
                 Result(if entry.value.1.Some? then Done(entry.value.1.value) else Waits(entry.value.0),
                        s.redis.store, s.redis.locks)
               else LockedFill(WorldOf(s, up), task.key, task.policy, factory, draw);
      SoloEnd(s, t, Steady(up, draw, factory)) == End(PcOf(r.answer), r.store, r.locks, s.table.inflight)
  {
    hide Solo, SoloEnd, LockedFill;
    var io := Steady(up, draw, factory);
    var task := s.tasks[t];
    var s1 := OneStep(s, t, io);
    if SlotOf(task) in s.table.inflight {
      JoinStops(s1, t, io);
    } else {
      SameWorld(s, s1, up);
      FromAcquire(s1, t, up, draw, factory);
      assert s1.table.inflight - {SlotOf(task)} == s.table.inflight;
    }
  }

  lemma SameWorld(s: State, s': State, up: bool)
    requires s'.now == s.now && s'.lockTtl == s.lockTtl && s'.jitter == s.jitter && s'.redis == s.redis
    ensures WorldOf(s', up) == WorldOf(s, up)
  {}

  /** A joiner takes what its future holds, or waits. */
  lemma JoinStops(s: State, t: TaskId, io: Io)
    requires t in s.tasks && s.tasks[t].pc.Join? && s.tasks[t].pc.fut in s.table.futs
    ensures var f := s.tasks[t].pc.fut;
      SoloEnd(s, t, io) == EndOf(s, t).(pc := if s.table.futs[f].Some? then Finished(s.table.futs[f].value) else Join(f))
  {
    if s.table.futs[s.tasks[t].pc.fut].Some? {
      var s1 := OneStep(s, t, io);
      FinishedStops(s1, t, io);
    }
  }

  /** A found legacy value is moved and returned. */
  lemma FromMigrate(s: State, t: TaskId, draw: nat, factory: Outcome)
    requires t in s.tasks && s.tasks[t].pc.Migrate? && s.tasks[t].pc.i < |s.tasks[t].legacy|
    ensures var task := s.tasks[t];
      SoloEnd(s, t, Steady(true, draw, factory)) ==
        End(Finished(Value(task.pc.v)),
            Moved(WorldOf(s, true), task.key, task.legacy[task.pc.i], task.pc.v, task.policy, draw),
            s.redis.locks, s.table.inflight)
  {
    hide Solo, SoloEnd, Put;
    var io := Steady(true, draw, factory);
    var s1 := OneStep(s, t, io);
    var s2 := OneStep(s1, t, io);
    FinishedStops(s2, t, io);
  }

  /** The registered future of a task's slot is known to the process. */
  predicate EntryKnown(s: State, task: Task) {
    SlotOf(task) in s.table.inflight ==> s.table.inflight[SlotOf(task)] in s.table.futs
  }

  /** The loop over the legacy keys, and what follows it. */
  lemma {:induction false} FromLegacy(s: State, t: TaskId, up: bool, draw: nat, factory: Outcome)
    requires t in s.tasks && s.tasks[t].pc.Legacy? && s.tasks[t].pc.i <= |s.tasks[t].legacy|
    requires EntryKnown(s, s.tasks[t]) && (factory.Raised? ==> factory.error.FactoryError?)
    ensures var task := s.tasks[t];
      var r := CallFromLegacy(WorldOf(s, up), EntryOf(s, task), task.key, task.legacy, task.policy, factory, draw, task.pc.i);
      SoloEnd(s, t, Steady(up, draw, factory)) == End(PcOf(r.answer), r.store, r.locks, s.table.inflight)
    decreases |s.tasks[t].legacy| - s.tasks[t].pc.i
  {
    hide Solo, SoloEnd, LockedFill, Filled, FilledStore, Moved, Seen, Look;
    var io := Steady(up, draw, factory);
    var task := s.tasks[t];
    var w := WorldOf(s, up);
    var i := task.pc.i;
    var s1 := OneStep(s, t, io);
    SameWorld(s, s1, up);
    if i < |task.legacy| {
      LookIsSeen(s, up, task.legacy[i], task.policy, draw, factory);
      FoundIsUp(w, task.legacy[i], task.policy);
      match s1.tasks[t].pc
      case Migrate(_, v) => FromMigrate(s1, t, draw, factory);
      case Legacy(_) => FromLegacy(s1, t, up, draw, factory);
      case Finished(_) => FinishedStops(s1, t, io);
    } else if task.policy.singleflight {
      FromRegister(s1, t, up, draw, factory);
    } else {
      FromRun(s1, t, up, draw, factory, Hold.Solo);
    }
  }

  lemma FoundIsUp(w: World, key: Key, policy: Policy)
    ensures Seen(w, key, policy).Found? ==> w.up
  {}

  /** Main result.  A call that steps alone, Redis answering or failing throughout, ends where the sequential
      `get_or_set` does: the same answer, the same store, the same locks, and the `_inflight` tables as before. */
  lemma SoloRunIsCallAlone(s: State, t: TaskId, up: bool, draw: nat, factory: Outcome)
    requires t in s.tasks && s.tasks[t].pc.Lookup?
    requires EntryKnown(s, s.tasks[t]) && (factory.Raised? ==> factory.error.FactoryError?)
    ensures var task := s.tasks[t];
      var r := CallAlone(WorldOf(s, up), EntryOf(s, task), task.key, task.legacy, task.policy, factory, draw);
      SoloEnd(s, t, Steady(up, draw, factory)) == End(PcOf(r.answer), r.store, r.locks, s.table.inflight)
  {
    hide Solo, SoloEnd, CallFromLegacy, Seen, Look;
    var io := Steady(up, draw, factory);
    var task := s.tasks[t];
    LookIsSeen(s, up, task.key, task.policy, draw, factory);
    var s1 := OneStep(s, t, io);
    SameWorld(s, s1, up);
    if s1.tasks[t].pc.Legacy? { FromLegacy(s1, t, up, draw, factory); } else { FinishedStops(s1, t, io); }
  }

  /** In every reachable state the registered futures are known. */
  lemma EntriesAreKnown(init: State, steps: seq<Step>, t: TaskId)
    requires Init(init) && Legal(init, steps) && t in Exec(init, steps).tasks
    ensures EntryKnown(Exec(init, steps), Exec(init, steps).tasks[t])
  {
    hide Exec, Legal;
    Leaders.InitInv(init);
    Leaders.RunInv(init, steps);
    var s := Exec(init, steps);
    var slot := SlotOf(s.tasks[t]);
    if slot in s.table.inflight {
      var f := s.table.inflight[slot];
      assert Leaders.Led(s.table, s.tasks, slot, f);
      assert Leaders.Leads(s.table, s.table.owner[f], s.tasks[s.table.owner[f]], f);
    }
  }

  /** So from any state that any run reaches, a call that has just arrived and then steps alone does what the
      sequential `get_or_set` does. */
  lemma ReachableSoloRun(init: State, steps: seq<Step>, t: TaskId, up: bool, draw: nat, factory: Outcome)
    requires Init(init) && Legal(init, steps) && t in Exec(init, steps).tasks
    requires Exec(init, steps).tasks[t].pc.Lookup? && (factory.Raised? ==> factory.error.FactoryError?)
    ensures var s := Exec(init, steps);
      var task := s.tasks[t];
      var r := CallAlone(WorldOf(s, up), EntryOf(s, task), task.key, task.legacy, task.policy, factory, draw);
      SoloEnd(s, t, Steady(up, draw, factory)) == End(PcOf(r.answer), r.store, r.locks, s.table.inflight)
  {
    hide *;
    EntriesAreKnown(init, steps, t);
    SoloRunIsCallAlone(Exec(init, steps), t, up, draw, factory);
  }
}
