/** What decides how a call of `get_or_set` ends: from that step on no other call, no failure and no schedule changes
    it, and the call runs no factory again. */
module SingleFlightEndings {
  import opened CacheSupport
  import opened CacheSingleflight
  import opened Wrappers
  import opened SingleFlight

  /** The call is on its way out with this outcome. */
  predicate EndsWith(pc: Pc, out: Outcome) {
    match pc
    case Unlock(_, _, _, o) => o == out
    case Resolve(_, o) => o == out
    case Pop(_, o) => o == out
    case Finished(o) => o == out
    case _ => false
  }

  ghost predicate Decided(s: State, t: TaskId, out: Outcome) {
    t in s.tasks && EndsWith(s.tasks[t].pc, out)
  }

  /** No factory run of the call but those it has made. */
  ghost predicate RunsNoMore(before: Log, after: Log, t: TaskId) {
    forall r :: r in after.runs && r.task == t ==> r in before.runs
  }

  lemma StepKeepsEnding(s: State, step: Step, t: TaskId, out: Outcome)
    requires Enabled(s, step) && Decided(s, t, out)
    ensures Decided(Next(s, step), t, out) && RunsNoMore(s.log, Next(s, step).log, t)
  {
    hide NextStore, NextLocks, NextTable, Look, Joining, Writing;
  }

  lemma {:induction false} EndingStays(s: State, steps: seq<Step>, t: TaskId, out: Outcome)
    requires Legal(s, steps) && Decided(s, t, out)
    ensures Decided(Exec(s, steps), t, out) && RunsNoMore(s.log, Exec(s, steps).log, t)
    decreases |steps|
  {
    hide Next, Decided;
    if |steps| > 0 {
      StepKeepsEnding(s, steps[0], t, out);
      EndingStays(Next(s, steps[0]), steps[1..], t, out);
    }
  }

  /** A call that did not get the lock and, after waiting, finds the key filled in, ends with that value and runs no
      factory. */
  lemma WaiterIsServed(s: State, t: TaskId, io: Io, steps: seq<Step>, v: Json)
    requires t in s.tasks && s.tasks[t].pc.Backoff? && !io.error && Legal(Next(s, Advance(t, io)), steps)
    requires LookIn(s.redis.store, s.tasks[t].key, s.now) == Found(v)
    ensures var r := Exec(Next(s, Advance(t, io)), steps); Decided(r, t, Value(v)) && RunsNoMore(s.log, r.log, t)
  {
    var s' := Next(s, Advance(t, io));
    assert Decided(s', t, Value(v)) && s'.log.runs == s.log.runs;
    EndingStays(s', steps, t, Value(v));
  }

  /** A call that finds its key at first ends with the value at once. */
  lemma HitIsServed(s: State, t: TaskId, io: Io, steps: seq<Step>, v: Json)
    requires t in s.tasks && s.tasks[t].pc.Lookup? && !io.error && Legal(Next(s, Advance(t, io)), steps)
    requires LookIn(s.redis.store, s.tasks[t].key, s.now) == Found(v)
    ensures var r := Exec(Next(s, Advance(t, io)), steps);
      t in r.tasks && r.tasks[t].pc == Finished(Value(v)) && RunsNoMore(s.log, r.log, t)
  {
    var s' := Next(s, Advance(t, io));
    assert s'.tasks[t].pc == Finished(Value(v)) && s'.log.runs == s.log.runs;
    FinishedStays(s', steps, t);
    EndingStays(s', steps, t, Value(v));
  }

  lemma {:induction false} FinishedStays(s: State, steps: seq<Step>, t: TaskId)
    requires Legal(s, steps) && t in s.tasks && s.tasks[t].pc.Finished?
    ensures var r := Exec(s, steps); t in r.tasks && r.tasks[t].pc == s.tasks[t].pc
    decreases |steps|
  {
    hide NextPc, NextStore, NextLocks, NextTable, NextLog;
    if |steps| > 0 { FinishedStays(Next(s, steps[0]), steps[1..], t); }
  }

  /** A factory's exception is the call's own, under every policy. */
  lemma FactoryErrorIsTheOutcome(s: State, t: TaskId, io: Io, steps: seq<Step>)
    requires Enabled(s, Advance(t, io)) && s.tasks[t].pc.Run? && io.result.Raised?
    requires Legal(Next(s, Advance(t, io)), steps)
    ensures Decided(Exec(Next(s, Advance(t, io)), steps), t, io.result)
  {
    assert Decided(Next(s, Advance(t, io)), t, io.result);
    EndingStays(Next(s, Advance(t, io)), steps, t, io.result);
  }

  /** After the write of a factory's value the call ends with the value, unless the write raised, the caller asked for
      CLOSED, and there was something to write: a value, or a marker for None with a lifetime. */
  lemma WriteDecides(s: State, t: TaskId, io: Io, steps: seq<Step>)
    requires t in s.tasks && s.tasks[t].pc.Save? && Legal(Next(s, Advance(t, io)), steps)
    ensures var policy := s.tasks[t].policy;
      var v := s.tasks[t].pc.v;
      var raises := io.error && policy.failClosed && (v != JNull || policy.negativeTtl > 0);
      Decided(Exec(Next(s, Advance(t, io)), steps), t, if raises then Raised(CacheError) else Value(v))
  {
    var policy := s.tasks[t].policy;
    var v := s.tasks[t].pc.v;
    var raises := io.error && policy.failClosed && (v != JNull || policy.negativeTtl > 0);
    var out := if raises then Raised(CacheError) else Value(v);
    assert Decided(Next(s, Advance(t, io)), t, out) by { hide NextStore, NextLocks, NextTable, NextLog; }
    EndingStays(Next(s, Advance(t, io)), steps, t, out);
  }

  /** A call that asked for CLOSED and cannot read ends with the cache's error; one that asked for OPEN goes on as if
      nothing were there, and in the end runs its factory. */
  lemma UnreadableKey(s: State, t: TaskId, io: Io, steps: seq<Step>)
    requires t in s.tasks && s.tasks[t].pc.Lookup? && io.error && Legal(Next(s, Advance(t, io)), steps)
    ensures if s.tasks[t].policy.failClosed
      then Decided(Exec(Next(s, Advance(t, io)), steps), t, Raised(CacheError))
      else Next(s, Advance(t, io)).tasks[t].pc == Legacy(0)
  {
    if s.tasks[t].policy.failClosed {
      assert Decided(Next(s, Advance(t, io)), t, Raised(CacheError));
      EndingStays(Next(s, Advance(t, io)), steps, t, Raised(CacheError));
    }
  }

  /** A factory only ever runs after the key was missed, or could not be read under OPEN; with a lock refused, it
      was missed twice. */
  lemma FactoryRunsAfterAMiss(s: State, t: TaskId, io: Io)
    requires Enabled(s, Advance(t, io)) && Next(s, Advance(t, io)).tasks[t].pc.Run?
    ensures var task := s.tasks[t];
      match task.pc
      case Backoff(_) => (io.error && !task.policy.failClosed) || LookIn(s.redis.store, task.key, s.now) == Absent
      case Acquire(_) => !io.error && (task.key !in s.redis.locks || s.redis.locks[task.key].expires <= s.now)
      case Legacy(i) => !task.policy.singleflight && i >= |task.legacy|
      case _ => false
  {
    hide NextStore, NextLocks, NextTable, NextLog;
  }

  // ---- The history is that of the run ----

  /** A factory run is recorded exactly when a call's factory ends, with its key and outcome. */
  lemma RunsAreTheSteps(s: State, step: Step)
    requires Enabled(s, step)
    ensures var runs := Next(s, step).log.runs;
      match step
      case Advance(t, io) =>
        runs == if s.tasks[t].pc.Run? then s.log.runs + {FactoryRun(t, s.tasks[t].key, io.result)} else s.log.runs
      case _ => runs == s.log.runs
  {
    hide Writing, Joining, NextPc, NextStore, NextLocks, NextTable;
  }

  /** A join is recorded only when a call finds its process's entry for its key and waits for that entry's owner. */
  lemma JoinsAreTheSteps(s: State, step: Step, t: TaskId, u: TaskId)
    requires Enabled(s, step) && (t, u) in Next(s, step).log.joins && (t, u) !in s.log.joins
    ensures step.Advance? && step.t == t && s.tasks[t].pc.Register?
    ensures var f := Next(s, step).tasks[t].pc;
      f.Join? && f.fut in s.table.owner && s.table.owner[f.fut] == u
  {
    hide Writing, NextStore, NextLocks, NextTable, Look;
  }

  /** A write is recorded only when it happened: the key then holds it, from this moment on, for the lifetimes of the
      policy it was written with. */
  lemma WritesAreTheSteps(s: State, step: Step, w: Written)
    requires Enabled(s, step) && w in Next(s, step).log.writes && w !in s.log.writes
    ensures var s' := Next(s, step);
      && w.at == s.now && w.key in s'.redis.store
      && s'.redis.store[w.key] == Entry(Wrap(w.value, w.at, w.soft, w.policy.swr), w.at + 1000 * (w.soft + Max(w.policy.swr, 0)))
  {
    hide NextPc, NextLocks, NextTable, Look;
  }

  /** The declared legacy keys, the keys asked for with CLOSED, and the seeds. */
  lemma CallersAreRecorded(s: State, step: Step)
    requires Enabled(s, step)
    ensures var log := Next(s, step).log;
      && log.seeds == s.log.seeds
      && match step
         case Arrive(t, proc, key, legacy, policy) =>
           && log.strict == (if policy.failClosed then s.log.strict + {key} else s.log.strict)
           && forall k, l :: (k, l) in log.links <==> (k, l) in s.log.links || (k == key && l in legacy)
         case _ => log.strict == s.log.strict && log.links == s.log.links
  {
    hide Writing, Joining, NextPc, NextStore, NextLocks, NextTable;
  }
}
