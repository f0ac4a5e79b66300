/** Where the results of `get_or_set` come from, over every interleaving. */
module SingleFlightValues {
  import opened CacheSupport
  import opened SingleFlight
  import Leaders = SingleFlightLeaders

  ghost predicate Chain(links: set<(Key, Key)>, path: seq<Key>) {
    forall i :: 0 <= i < |path| - 1 ==> (path[i], path[i + 1]) in links
  }

  ghost predicate Produced(log: Log, key: Key, v: Json) {
    (exists u :: FactoryRun(u, key, Value(v)) in log.runs) || (key, v) in log.seeds
  }

  /** `v` was produced for `key`, or for a key reached from it along declared legacy keys. */
  ghost predicate Origin(log: Log, key: Key, v: Json) {
    exists path: seq<Key> :: Chain(log.links, path) && |path| > 0 && path[0] == key && Produced(log, path[|path| - 1], v)
  }

  ghost predicate Sourced(log: Log, key: Key, v: Json) {
    v != JNull && Plain(v) && Origin(log, key, v)
  }

  /** What call `u` may end with on its own account: a value with an origin, a None or an exception of a factory
      that `u` itself ran for this key, or a cache error when some caller asked for CLOSED. */
  ghost predicate Explained(log: Log, u: TaskId, key: Key, out: Outcome) {
    match out
    case Value(v) => if v == JNull then FactoryRun(u, key, out) in log.runs else Sourced(log, key, v)
    case Raised(CacheError) => key in log.strict
    case Raised(FactoryError(c)) => FactoryRun(u, key, out) in log.runs
  }

  /** A call ends on its own account, or on that of the one leader it joined. */
  ghost predicate Answered(log: Log, t: TaskId, key: Key, out: Outcome) {
    exists u :: (u == t || (t, u) in log.joins) && Explained(log, u, key, out)
  }

  ghost predicate PayloadOk(log: Log, key: Key, p: Json) {
    Read(p, 0).Negative? || (Read(p, 0).Hit? && Sourced(log, key, Content(p)))
  }

  ghost predicate TaskOk(log: Log, t: TaskId, task: Task) {
    && (forall l :: l in task.legacy ==> (task.key, l) in log.links)
    && (task.policy.failClosed ==> task.key in log.strict)
    && match task.pc
       case Migrate(i, v) => i < |task.legacy| && Sourced(log, task.legacy[i], v)
       case Retire(i, v) => Sourced(log, task.key, v)
       case Save(_, v) => Explained(log, t, task.key, Value(v))
       case Unlock(_, _, _, out) => Explained(log, t, task.key, out)
       case Resolve(_, out) => Explained(log, t, task.key, out)
       case Pop(_, out) => Explained(log, t, task.key, out)
       case Finished(out) => Answered(log, t, task.key, out)
       case _ => true
  }

  /** A waiting call has joined the leader of its future. */
  ghost predicate JoinOk(s: State, t: TaskId)
    requires t in s.tasks
  {
    s.tasks[t].pc.Join? ==>
      s.tasks[t].pc.fut in s.table.owner && (t, s.table.owner[s.tasks[t].pc.fut]) in s.log.joins
  }

  ghost predicate FutOk(s: State, f: FutId)
    requires f in s.table.futs
  {
    s.table.futs[f].Some? ==>
      && f in s.table.owner && s.table.owner[f] in s.tasks
      && Explained(s.log, s.table.owner[f], s.tasks[s.table.owner[f]].key, s.table.futs[f].value)
  }

  ghost predicate StoreOk(log: Log, store: Store) {
    forall k :: k in store ==> PayloadOk(log, k, store[k].payload)
  }

  ghost predicate Inv(s: State) {
    && StoreOk(s.log, s.redis.store)
    && (forall t :: t in s.tasks ==> TaskOk(s.log, t, s.tasks[t]))
    && (forall t :: t in s.tasks ==> JoinOk(s, t))
    && (forall f :: f in s.table.futs ==> FutOk(s, f))
  }

  /** The factories of the run yield values the cache cannot mistake for its own payload shapes. */
  predicate Clean(step: Step) {
    step.Advance? && step.io.result.Value? ==> Plain(step.io.result.v)
  }

  // ---- The history only grows ----

  ghost predicate Grows(log: Log, log': Log) {
    log.runs <= log'.runs && log.joins <= log'.joins && log.links <= log'.links && log.strict <= log'.strict && log.seeds == log'.seeds
  }

  lemma OriginGrows(log: Log, log': Log, key: Key, v: Json)
    requires Grows(log, log') && Origin(log, key, v)
    ensures Origin(log', key, v)
  {
    var path :| Chain(log.links, path) && |path| > 0 && path[0] == key && Produced(log, path[|path| - 1], v);
    assert Chain(log'.links, path);
  }

  lemma ExplainedGrows(log: Log, log': Log, u: TaskId, key: Key, out: Outcome)
    requires Grows(log, log') && Explained(log, u, key, out)
    ensures Explained(log', u, key, out)
  {
    if out.Value? && out.v != JNull { OriginGrows(log, log', key, out.v); }
  }

  lemma AnsweredGrows(log: Log, log': Log, t: TaskId, key: Key, out: Outcome)
    requires Grows(log, log') && Answered(log, t, key, out)
    ensures Answered(log', t, key, out)
  {
    var u :| (u == t || (t, u) in log.joins) && Explained(log, u, key, out);
    ExplainedGrows(log, log', u, key, out);
  }

  lemma TaskOkGrows(log: Log, log': Log, t: TaskId, task: Task)
    requires Grows(log, log') && TaskOk(log, t, task)
    ensures TaskOk(log', t, task)
  {
    match task.pc
    case Migrate(i, v) => OriginGrows(log, log', task.legacy[i], v);
    case Retire(i, v) => OriginGrows(log, log', task.key, v);
    case Save(_, v) => ExplainedGrows(log, log', t, task.key, Value(v));
    case Unlock(_, _, _, out) => ExplainedGrows(log, log', t, task.key, out);
    case Resolve(_, out) => ExplainedGrows(log, log', t, task.key, out);
    case Pop(_, out) => ExplainedGrows(log, log', t, task.key, out);
    case Finished(out) => AnsweredGrows(log, log', t, task.key, out);
    case _ =>
  }

  lemma StoreOkGrows(log: Log, log': Log, store: Store)
    requires Grows(log, log') && StoreOk(log, store)
    ensures StoreOk(log', store)
  {
    forall k | k in store ensures PayloadOk(log', k, store[k].payload) {
      if !Read(store[k].payload, 0).Negative? { OriginGrows(log, log', k, Content(store[k].payload)); }
    }
  }

  lemma FactoryIsOrigin(log: Log, key: Key, v: Json)
    requires Produced(log, key, v)
    ensures Origin(log, key, v)
  {
    assert Chain(log.links, [key]);
  }

  /** A value found under a legacy key may be answered for the new key. */
  lemma LegacyIsOrigin(log: Log, key: Key, legacy: Key, v: Json)
    requires (key, legacy) in log.links && Origin(log, legacy, v)
    ensures Origin(log, key, v)
  {
    var path :| Chain(log.links, path) && |path| > 0 && path[0] == legacy && Produced(log, path[|path| - 1], v);
    var path' := [key] + path;
    assert Chain(log.links, path');
    assert path'[|path'| - 1] == path[|path| - 1];
  }

  // ---- Reads and writes ----

  lemma ReadIsTimeless(p: Json, now: int)
    ensures Read(p, now).Negative? == Read(p, 0).Negative? && Read(p, now).Broken? == Read(p, 0).Broken?
    ensures ValueOf(Read(p, now)) == Content(p)
  {}

  lemma LookIsSourced(s: State, key: Key, policy: Policy, io: Io)
    requires StoreOk(s.log, s.redis.store)
    ensures var l := Look(s, key, policy, io);
      && (l.Found? ==> Sourced(s.log, key, l.v))
      && (l.Fails? ==> policy.failClosed)
  {
    if Live(s.redis.store, key, s.now) { ReadIsTimeless(s.redis.store[key].payload, s.now); }
  }

  lemma WriteIsOk(log: Log, store: Store, key: Key, v: Json, now: int, soft: int, swr: int)
    requires StoreOk(log, store) && Sourced(log, key, v)
    ensures StoreOk(log, SetJson(store, key, v, now, soft, swr))
  {
    WrapRoundTrip(v, now, soft, swr, 0);
  }

  lemma NextStoreOk(s: State, t: TaskId, io: Io)
    requires Inv(s) && t in s.tasks
    ensures StoreOk(s.log, NextStore(s, s.tasks[t], io))
  {
    var task := s.tasks[t];
    assert TaskOk(s.log, t, task);
    var w := Writing(s, task, io);
    match task.pc
    case Migrate(i, v) =>
      LegacyIsOrigin(s.log, task.key, task.legacy[i], v);
      WriteIsOk(s.log, s.redis.store, task.key, v, s.now, w.value.soft, task.policy.swr);
    case Save(_, v) =>
      if v != JNull { WriteIsOk(s.log, s.redis.store, task.key, v, s.now, w.value.soft, task.policy.swr); }
    case _ =>
  }

  /** A resolved future answers whoever joined it. */
  lemma JoinIsAnswered(s: State, t: TaskId)
    requires Inv(s) && Leaders.Inv(s) && t in s.tasks && s.tasks[t].pc.Join?
    ensures var f := s.tasks[t].pc.fut;
      f in s.table.futs && s.table.futs[f].Some? ==> Answered(s.log, t, s.tasks[t].key, s.table.futs[f].value)
  {
    hide Explained, StoreOk, TaskOk;
    assert Leaders.Joined(s.table, s.tasks, s.tasks[t], s.tasks[t].pc.fut);
    assert JoinOk(s, t);
  }

  lemma OwnAnswer(log: Log, t: TaskId, key: Key, out: Outcome)
    requires Explained(log, t, key, out)
    ensures Answered(log, t, key, out)
  {}

  /** What the task is about to write, return or hand over is still explained after its step. */
  lemma NextTaskOk(s: State, t: TaskId, io: Io)
    requires Inv(s) && Leaders.Inv(s) && Enabled(s, Advance(t, io)) && Clean(Advance(t, io))
    ensures var task := s.tasks[t]; TaskOk(NextLog(s, t, task, io), t, task.(pc := NextPc(s, task, io)))
  {
    hide Origin, StoreOk, Look, SetJson, Plain, Leaders.Consistent, Writing, Joining, Answered;
    var task := s.tasks[t];
    assert TaskOk(s.log, t, task);
    var log' := NextLog(s, t, task, io);
    TaskOkGrows(s.log, log', t, task);
    match task.pc
    case Lookup =>
      LookIsSourced(s, task.key, task.policy, io);
      LookGrows(s, log', task.key, task.policy, io);
      AnswerSettled(log', t, task, NextPc(s, task, io));
    case Join(f) =>
      JoinIsAnswered(s, t);
      AnsweredGrows(s.log, log', t, task.key, s.table.futs[f].value);
    case Legacy(i) =>
      if i < |task.legacy| {
        LookIsSourced(s, task.legacy[i], task.policy, io);
        LookGrows(s, log', task.legacy[i], task.policy, io);
        AnswerSettled(log', t, task, NextPc(s, task, io));
      }
    case Backoff(f) =>
      LookIsSourced(s, task.key, task.policy, io);
      LookGrows(s, log', task.key, task.policy, io);
    case Migrate(i, v) =>
      LegacyIsOrigin(log', task.key, task.legacy[i], v);
      AnswerSettled(log', t, task, NextPc(s, task, io));
    case Retire(i, v) => OwnAnswer(log', t, task.key, Value(v));
    case Run(hold) =>
      if io.result.Value? { FactoryIsOrigin(log', task.key, io.result.v); }
      AnswerSettled(log', t, task, NextPc(s, task, io));
    case _ => AnswerSettled(log', t, task, NextPc(s, task, io));
  }

  lemma LookGrows(s: State, log': Log, key: Key, policy: Policy, io: Io)
    requires StoreOk(s.log, s.redis.store) && Grows(s.log, log')
    ensures var l := Look(s, key, policy, io); l.Found? ==> Sourced(log', key, l.v)
  {
    LookIsSourced(s, key, policy, io);
    var l := Look(s, key, policy, io);
    if l.Found? { OriginGrows(s.log, log', key, l.v); }
  }

  /** A call that ends with something explained on its own account is answered. */
  lemma AnswerSettled(log: Log, t: TaskId, task: Task, pc: Pc)
    ensures pc.Finished? && Explained(log, t, task.key, pc.out) ==> Answered(log, t, task.key, pc.out)
  {}

  // ---- The invariant ----

  lemma InitInv(s: State)
    requires Init(s)
    ensures Inv(s)
  {
    forall k | k in s.redis.store && Read(s.redis.store[k].payload, 0).Hit?
      ensures Origin(s.log, k, Content(s.redis.store[k].payload))
    {
      FactoryIsOrigin(s.log, k, Content(s.redis.store[k].payload));
    }
  }

  lemma ArriveInv(s: State, step: Step)
    requires Inv(s) && step.Arrive? && Enabled(s, step)
    ensures Inv(Next(s, step))
  {
    var s' := Next(s, step);
    StoreOkGrows(s.log, s'.log, s.redis.store);
    hide Explained, Answered, Origin;
    forall t | t in s.tasks ensures TaskOk(s'.log, t, s.tasks[t]) { TaskOkGrows(s.log, s'.log, t, s.tasks[t]); }
    forall t | t in s'.tasks ensures JoinOk(s', t) { if t in s.tasks { assert JoinOk(s, t); } }
    forall f | f in s.table.futs && s.table.futs[f].Some? ensures FutOk(s', f) {
      assert FutOk(s, f);
      var u := s.table.owner[f];
      ExplainedGrows(s.log, s'.log, u, s.tasks[u].key, s.table.futs[f].value);
    }
  }

  lemma LogGrows(s: State, t: TaskId, task: Task, io: Io)
    ensures Grows(s.log, NextLog(s, t, task, io))
  {}

  lemma EntryHasOwner(s: State, slot: (Proc, Key))
    requires Leaders.Inv(s) && slot in s.table.inflight
    ensures s.table.inflight[slot] in s.table.owner
  {
    assert Leaders.Led(s.table, s.tasks, slot, s.table.inflight[slot]);
  }

  lemma JoinedFutureIsKnown(s: State, u: TaskId)
    requires Leaders.Inv(s) && u in s.tasks && s.tasks[u].pc.Join?
    ensures s.tasks[u].pc.fut in s.table.futs
  {
    assert Leaders.Joined(s.table, s.tasks, s.tasks[u], s.tasks[u].pc.fut);
  }

  lemma JoinStaysOk(s: State, t: TaskId, io: Io, u: TaskId)
    requires Inv(s) && Leaders.Inv(s) && Enabled(s, Advance(t, io)) && u in s.tasks
    ensures JoinOk(Next(s, Advance(t, io)), u)
  {
    hide Leaders.Consistent, Explained, Answered, StoreOk, Look, NextStore, NextLocks, Writing, TaskOk, FutOk;
    assert JoinOk(s, u);
    if u == t && s.tasks[t].pc.Register? && SlotOf(s.tasks[t]) in s.table.inflight {
      EntryHasOwner(s, SlotOf(s.tasks[t]));
    }
    if s.tasks[u].pc.Join? {
      JoinedFutureIsKnown(s, u);
      FreshFuture(s, t, s.tasks[u].pc.fut);
    }
  }

  lemma AdvanceInv(s: State, t: TaskId, io: Io)
    requires Inv(s) && Leaders.Inv(s) && Enabled(s, Advance(t, io)) && Clean(Advance(t, io))
    ensures Inv(Next(s, Advance(t, io)))
  {
    hide Leaders.Consistent, TaskOk, JoinOk, FutOk, StoreOk, NextStore, NextLocks, NextPc, NextLog;
    var task := s.tasks[t];
    var s' := Next(s, Advance(t, io));
    LogGrows(s, t, task, io);
    NextStoreOk(s, t, io);
    StoreOkGrows(s.log, s'.log, s'.redis.store);
    NextTaskOk(s, t, io);
    forall u | u in s.tasks && u != t ensures TaskOk(s'.log, u, s'.tasks[u]) { TaskOkGrows(s.log, s'.log, u, s.tasks[u]); }
    forall u | u in s.tasks ensures JoinOk(s', u) { JoinStaysOk(s, t, io, u); }
    forall f | f in s'.table.futs ensures FutOk(s', f) { FutStaysOk(s, t, io, f); }
  }

  lemma ResolverLeads(s: State, t: TaskId)
    requires Leaders.Inv(s) && t in s.tasks && s.tasks[t].pc.Resolve?
    ensures Leaders.Leads(s.table, t, s.tasks[t], s.tasks[t].pc.fut)
  {}

  lemma FutStaysOk(s: State, t: TaskId, io: Io, f: FutId)
    requires Inv(s) && Leaders.Inv(s) && Enabled(s, Advance(t, io))
    requires f in Next(s, Advance(t, io)).table.futs
    ensures FutOk(Next(s, Advance(t, io)), f)
  {
    hide Leaders.Consistent, Origin, StoreOk, Explained, Answered, Look, NextStore, NextLocks, NextPc, NextLog, JoinOk;
    var s' := Next(s, Advance(t, io));
    var task := s.tasks[t];
    LogGrows(s, t, task, io);
    if s'.table.futs[f].Some? {
      if task.pc.Resolve? && task.pc.fut == f {
        ResolverLeads(s, t);
        assert TaskOk(s.log, t, task);
        ExplainedGrows(s.log, s'.log, t, task.key, task.pc.out);
      } else {
        assert FutOk(s, f);
        var u := s.table.owner[f];
        FreshFuture(s, t, f);
        ExplainedGrows(s.log, s'.log, u, s.tasks[u].key, s.table.futs[f].value);
      }
    }
  }

  /** A known future keeps its owner. */
  lemma FreshFuture(s: State, t: TaskId, f: FutId)
    requires Leaders.Inv(s) && t in s.tasks && f in s.table.futs
    ensures f in s.table.owner && NextTable(s.table, t, s.tasks[t]).owner[f] == s.table.owner[f]
  {
    assert Leaders.Tracked(s.table, s.tasks, f);
  }

  lemma NextInv(s: State, step: Step)
    requires Inv(s) && Leaders.Inv(s) && Enabled(s, step) && Clean(step)
    ensures Inv(Next(s, step))
  {
    match step
    case Arrive(_, _, _, _, _) => ArriveInv(s, step);
    case Advance(t, io) => AdvanceInv(s, t, io);
    case _ =>
      hide Explained, Answered, Origin, TaskOk;
      var s' := Next(s, step);
      forall t | t in s'.tasks ensures JoinOk(s', t) { assert JoinOk(s, t); }
      forall f | f in s'.table.futs ensures FutOk(s', f) { assert FutOk(s, f); }
  }

  lemma {:induction false} RunInv(s: State, steps: seq<Step>)
    requires Inv(s) && Leaders.Inv(s) && Legal(s, steps)
    requires forall i :: 0 <= i < |steps| ==> Clean(steps[i])
    ensures Inv(Exec(s, steps)) && Leaders.Inv(Exec(s, steps))
    decreases |steps|
  {
    if |steps| != 0 {
      hide Inv, Leaders.Inv;
      NextInv(s, steps[0]);
      Leaders.NextInv(s, steps[0]);
      RunInv(Next(s, steps[0]), steps[1..]);
    }
  }

  /** Main result.  In every interleaving of any number of calls, with expiries, dropped keys and failing Redis
      calls: a call that ends with a value ends with one that a factory produced for its key, or that came from
      a declared legacy key; and a call that ends with None or a factory's exception ran that factory itself, or
      joined the leader that did.  So no stored entry, negative ones included, ever stands in for that run. */
  lemma ResultsAgreeWithFactories(init: State, steps: seq<Step>, t: TaskId)
    requires Init(init) && Legal(init, steps)
    requires forall i :: 0 <= i < |steps| ==> Clean(steps[i])
    requires var s := Exec(init, steps); t in s.tasks && s.tasks[t].pc.Finished?
    ensures var s := Exec(init, steps); Answered(s.log, t, s.tasks[t].key, s.tasks[t].pc.out)
  {
    hide Answered, Legal, Exec;
    Leaders.InitInv(init);
    InitInv(init);
    RunInv(init, steps);
    var s := Exec(init, steps);
    assert TaskOk(s.log, t, s.tasks[t]);
  }
}
