/** `TenantCache.get_or_set` as a protocol.

    Any number of tasks, in any number of worker processes, interleave at every await.  They share one
    Redis (data keys and token locks, both with expiry); each process has its own `_inflight` table.
    A Redis call may raise, and when it raises its effect may or may not have happened; keys may be dropped
    at any time; time may pass at any time. */
module SingleFlight {
  import opened CacheSupport
  import opened CacheSingleflight
  import opened Wrappers

  type Proc = nat
  type TaskId = nat
  type FutId = nat

  datatype Error = CacheError | FactoryError(code: nat)

  /** What a call ends with; `Value(JNull)` is a call that returns None. */
  datatype Outcome = Value(v: Json) | Raised(error: Error)

  datatype Policy = Policy(ttl: int, jitter: int, singleflight: bool, failClosed: bool, swr: int, negativeTtl: int)

  /** Under which protection a factory runs. */
  datatype Hold =
    | Solo
    | Leader(fut: FutId)
    | Locked(fut: FutId, token: nat, since: int)

  datatype Pc =
    | Lookup
    | Legacy(i: nat)
    | Migrate(i: nat, v: Json)
    | Retire(i: nat, v: Json)
    | Register
    | Join(fut: FutId)
    | Acquire(fut: FutId)
    | Backoff(fut: FutId)
    | Run(hold: Hold)
    | Save(hold: Hold, v: Json)
    | Unlock(fut: FutId, token: nat, since: int, out: Outcome)
    | Resolve(fut: FutId, out: Outcome)
    | Pop(fut: FutId, out: Outcome)
    | Finished(out: Outcome)

  datatype Task = Task(proc: Proc, key: Key, legacy: seq<Key>, policy: Policy, pc: Pc)

  /** A finished factory run, and the call that made it. */
  datatype FactoryRun = FactoryRun(task: TaskId, key: Key, out: Outcome)

  /** A write of a value to a data key, by a caller with this policy. */
  datatype Written = Written(key: Key, value: Json, at: int, soft: int, policy: Policy)

  /** The shared Redis: data keys, lock keys, and the tokens drawn so far. */
  datatype Redis = Redis(store: Store, locks: Locks, nextToken: nat)

  /** The `_inflight` tables of all processes and the futures in them; `owner` remembers who created which. */
  datatype Table = Table(
    inflight: map<(Proc, Key), FutId>, futs: map<FutId, Option<Outcome>>, owner: map<FutId, TaskId>, nextFut: FutId)

  /** History: the factory runs, which call joined which leader, the writes, which legacy keys were declared, for
      which keys some caller asked for CLOSED, and what Redis held at the start. */
  datatype Log = Log(
    runs: set<FactoryRun>, joins: set<(TaskId, TaskId)>, writes: set<Written>,
    links: set<(Key, Key)>, strict: set<Key>, seeds: set<(Key, Json)>)

  /** `lockTtl` and `jitter` are settings: the lifetime of a lock, and the jitter of a policy that names none. */
  datatype State = State(
    now: int, lockTtl: int, jitter: int, redis: Redis, table: Table, tasks: map<TaskId, Task>, log: Log)

  /** The environment's choices for one step of a task: whether the Redis call raises, whether a raising or
      refused write happened nevertheless, the random jitter of a write, and the factory's result. */
  datatype Io = Io(error: bool, applied: bool, draw: nat, result: Outcome)

  datatype Step =
    | Arrive(t: TaskId, proc: Proc, key: Key, legacy: seq<Key>, policy: Policy)
    | Tick(d: nat)
    | DropData(key: Key)
    | DropLock(key: Key)
    | Advance(t: TaskId, io: Io)

  // ---- One step ----

  /** Where a task goes once its factory phase ends with `out`. */
  function Leave(hold: Hold, out: Outcome): Pc {
    match hold
    case Solo => Finished(out)
    case Leader(f) => Resolve(f, out)
    case Locked(f, token, since) => Unlock(f, token, since, out)
  }

  predicate Enabled(s: State, step: Step) {
    match step
    case Arrive(t, _, _, _, _) => t !in s.tasks
    case Tick(_) => true
    case DropData(_) => true
    case DropLock(_) => true
    case Advance(t, io) =>
      && t in s.tasks
      && match s.tasks[t].pc
         case Join(f) => f in s.table.futs && s.table.futs[f].Some?
         case Run(_) => io.result.Value? || io.result.error.FactoryError?
         case Finished(_) => false
         case _ => true
  }

  /** What `get_json` does to its caller: raises, hands over a value, or reports None. */
  datatype Looked = Fails | Found(v: Json) | Absent

  /** A Redis error raises only under CLOSED; a payload that cannot be unwrapped always raises. */
  function Look(s: State, key: Key, policy: Policy, io: Io): Looked {
    if io.error then (if policy.failClosed then Fails else Absent) else LookIn(s.redis.store, key, s.now)
  }

  function LookIn(store: Store, key: Key, now: int): Looked {
    var r := GetJson(store, key, now);
    if r.Broken? then Fails else if ValueOf(r) != JNull then Found(ValueOf(r)) else Absent
  }

  function SlotOf(task: Task): (Proc, Key) {
    (task.proc, task.key)
  }

  /** The lifetime of a value written with this policy; a draw beyond the jitter counts as the whole jitter. */
  function SoftTtl(ttl: int, jitter: int, defaultJitter: int, draw: nat): (soft: int)
    ensures Max(ttl, 1) <= soft <= Max(ttl + Max(if jitter == 0 then defaultJitter else jitter, 0), 1)
    ensures ttl >= 1 && (draw <= jitter || (jitter == 0 && draw <= defaultJitter)) ==> soft == ttl + draw
  {
    EffectiveTtl(ttl, jitter, defaultJitter, Min(draw, Max(if jitter == 0 then defaultJitter else jitter, 0)))
  }

  /** Does this factory result lead to a write at all? */
  predicate Writes(policy: Policy, v: Json) {
    v != JNull || policy.negativeTtl > 0
  }

  /** Where the task goes. */
  function NextPc(s: State, task: Task, io: Io): Pc {
    match task.pc
    case Lookup =>
      (match Look(s, task.key, task.policy, io)
       case Found(v) => Finished(Value(v))
       case Absent => Legacy(0)
       case Fails => Finished(Raised(CacheError)))
    case Legacy(i) =>
      if i < |task.legacy| then
        match Look(s, task.legacy[i], task.policy, io)
        case Found(v) => Migrate(i, v)
        case Absent => Legacy(i + 1)
        case Fails => Finished(Raised(CacheError))
      else if task.policy.singleflight then Register
      else Run(Solo)
    case Migrate(i, v) => if io.error && task.policy.failClosed then Finished(Raised(CacheError)) else Retire(i, v)
    case Retire(i, v) => Finished(Value(v))
    case Register =>
      if SlotOf(task) in s.table.inflight then Join(s.table.inflight[SlotOf(task)]) else Acquire(s.table.nextFut)
    case Join(f) => if f in s.table.futs && s.table.futs[f].Some? then Finished(s.table.futs[f].value) else task.pc
    case Acquire(f) =>
      if !io.error && !Held(s.redis.locks, task.key, s.now) then Run(Locked(f, s.redis.nextToken, s.now))
      else Backoff(f)
    case Backoff(f) =>
      (match Look(s, task.key, task.policy, io)
       case Found(v) => Resolve(f, Value(v))
       case Absent => Run(Leader(f))
       case Fails => Resolve(f, Raised(CacheError)))
    case Run(hold) => if io.result.Value? then Save(hold, io.result.v) else Leave(hold, io.result)
    case Save(hold, v) =>
      Leave(hold, if io.error && task.policy.failClosed && Writes(task.policy, v) then Raised(CacheError) else Value(v))
    case Unlock(f, _, _, out) => Resolve(f, out)
    case Resolve(f, out) => Pop(f, out)
    case Pop(f, out) => Finished(out)
    case Finished(_) => task.pc
  }

  /** What the task writes to its key in this step, if anything: a migrated value, a factory's value, or the
      negative marker, which has the negative lifetime and no stale window. */
  function Writing(s: State, task: Task, io: Io): Option<Written> {
    match task.pc
    case Migrate(_, v) =>
      Some(Written(task.key, v, s.now, SoftTtl(task.policy.ttl, task.policy.jitter, s.jitter, io.draw), task.policy))
    case Save(_, v) =>
      if !Writes(task.policy, v) then None
      else if v == JNull then
        var p := NegativePolicy(task.policy);
        Some(Written(task.key, NegativePayload(s.now), s.now, SoftTtl(p.ttl, p.jitter, s.jitter, io.draw), p))
      else
        Some(Written(task.key, v, s.now, SoftTtl(task.policy.ttl, task.policy.jitter, s.jitter, io.draw), task.policy))
    case _ => None
  }

  /** The policy `set_negative` writes with. */
  function NegativePolicy(p: Policy): Policy {
    Policy(p.negativeTtl, 0, false, p.failClosed, 0, 0)
  }

  function Put(store: Store, w: Written): Store {
    SetJson(store, w.key, w.value, w.at, w.soft, w.policy.swr)
  }

  /** What the task does to the data keys.  A write that reports an error may still have happened. */
  function NextStore(s: State, task: Task, io: Io): Store {
    var store := s.redis.store;
    var w := Writing(s, task, io);
    if !io.applied then store
    else if w.Some? then Put(store, w.value)
    else if task.pc.Retire? && task.pc.i < |task.legacy| then store - {task.legacy[task.pc.i]}
    else store
  }

  /** What the task does to the lock keys. */
  function NextLocks(s: State, task: Task, io: Io): Locks {
    var locks := s.redis.locks;
    match task.pc
    case Acquire(_) =>
      if !io.error || io.applied then TryLock(locks, task.key, s.redis.nextToken, s.now, s.lockTtl) else locks
    case Unlock(_, token, _, _) => if io.applied then CompareAndDelete(locks, task.key, token, s.now) else locks
    case _ => locks
  }

  /** What the task does to its process's `_inflight` table and to the futures. */
  function NextTable(table: Table, t: TaskId, task: Task): Table {
    match task.pc
    case Register =>
      if SlotOf(task) in table.inflight then table
      else
        var f := table.nextFut;
        Table(table.inflight[SlotOf(task) := f], table.futs[f := None], table.owner[f := t], f + 1)
    case Resolve(f, out) => table.(futs := table.futs[f := Some(out)])
    case Pop(f, out) => table.(inflight := table.inflight - {SlotOf(task)})
    case _ => table
  }

  function NextLog(s: State, t: TaskId, task: Task, io: Io): Log {
    var w := Writing(s, task, io);
    s.log.(runs := s.log.runs + if task.pc.Run? then {FactoryRun(t, task.key, io.result)} else {},
           joins := s.log.joins + Joining(s.table, t, task),
           writes := s.log.writes + if io.applied && w.Some? then {w.value} else {})
  }

  /** Whom the task joins in this step. */
  function Joining(table: Table, t: TaskId, task: Task): set<(TaskId, TaskId)> {
    if task.pc.Register? && SlotOf(task) in table.inflight && table.inflight[SlotOf(task)] in table.owner
    then {(t, table.owner[table.inflight[SlotOf(task)]])} else {}
  }

  function Next(s: State, step: Step): State
    requires Enabled(s, step)
  {
    match step
    case Arrive(t, proc, key, legacy, policy) =>
      s.(tasks := s.tasks[t := Task(proc, key, legacy, policy, Lookup)],
         log := s.log.(links := s.log.links + (set l | l in legacy :: (key, l)),
                       strict := s.log.strict + if policy.failClosed then {key} else {}))
    case Tick(d) => s.(now := s.now + d)
    case DropData(key) => s.(redis := s.redis.(store := s.redis.store - {key}))
    case DropLock(key) => s.(redis := s.redis.(locks := s.redis.locks - {key}))
    case Advance(t, io) =>
      var task := s.tasks[t];
      State(s.now, s.lockTtl, s.jitter,
            Redis(NextStore(s, task, io), NextLocks(s, task, io), s.redis.nextToken + if task.pc.Acquire? then 1 else 0),
            NextTable(s.table, t, task),
            s.tasks[t := task.(pc := NextPc(s, task, io))],
            NextLog(s, t, task, io))
  }

  // ---- Runs ----

  predicate Legal(s: State, steps: seq<Step>)
    decreases |steps|
  {
    |steps| == 0 || (Enabled(s, steps[0]) && Legal(Next(s, steps[0]), steps[1..]))
  }

  function Exec(s: State, steps: seq<Step>): State
    requires Legal(s, steps)
    decreases |steps|
  {
    if |steps| == 0 then s else Exec(Next(s, steps[0]), steps[1..])
  }

  /** The value inside a stored payload; it does not depend on the time of reading. */
  function Content(p: Json): Json {
    ValueOf(Read(p, 0))
  }

  /** A payload the cache itself could have written. */
  predicate Readable(p: Json) {
    Read(p, 0).Negative? || (Read(p, 0).Hit? && Content(p) != JNull && Plain(Content(p)))
  }

  /** No task yet; Redis may already hold values, remembered as seeds. */
  ghost predicate Init(s: State) {
    && s.tasks == map[] && s.redis.locks == map[]
    && s.table.inflight == map[] && s.table.futs == map[] && s.table.owner == map[]
    && s.log.runs == {} && s.log.joins == {} && s.log.writes == {} && s.log.links == {} && s.log.strict == {}
    && (forall k :: k in s.redis.store ==> Readable(s.redis.store[k].payload))
    && s.log.seeds == set k | k in s.redis.store :: (k, Content(s.redis.store[k].payload))
  }
}
