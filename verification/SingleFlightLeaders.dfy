/** The `_inflight` table: one leader for every entry, no orphaned joiner, no deadlock, bounded tasks. */
module SingleFlightLeaders {
  import opened CacheSupport
  import opened Wrappers
  import opened SingleFlight

  function HoldFut(h: Hold): Option<FutId> {
    match h
    case Solo => None
    case Leader(f) => Some(f)
    case Locked(f, _, _) => Some(f)
  }

  /** The future a task leads, from registering it until it is popped. */
  function LeadOf(pc: Pc): Option<FutId> {
    match pc
    case Acquire(f) => Some(f)
    case Backoff(f) => Some(f)
    case Run(h) => HoldFut(h)
    case Save(h, _) => HoldFut(h)
    case Unlock(f, _, _, _) => Some(f)
    case Resolve(f, _) => Some(f)
    case Pop(f, _) => Some(f)
    case _ => None
  }

  /** `f` is the future of the table entry at `slot`, and the task that created it still leads it. */
  ghost predicate Led(table: Table, tasks: map<TaskId, Task>, slot: (Proc, Key), f: FutId) {
    && f in table.owner && table.owner[f] in tasks
    && SlotOf(tasks[table.owner[f]]) == slot
    && LeadOf(tasks[table.owner[f]].pc) == Some(f)
  }

  /** A leading task owns its table entry, and its future is resolved exactly when it is about to pop it. */
  ghost predicate Leads(table: Table, t: TaskId, task: Task, f: FutId) {
    && f in table.owner && table.owner[f] == t
    && SlotOf(task) in table.inflight && table.inflight[SlotOf(task)] == f
    && f in table.futs && table.futs[f] == (if task.pc.Pop? then Some(task.pc.out) else None)
  }

  ghost predicate Joined(table: Table, tasks: map<TaskId, Task>, task: Task, f: FutId) {
    f in table.futs && f in table.owner && table.owner[f] in tasks && SlotOf(tasks[table.owner[f]]) == SlotOf(task)
  }

  ghost predicate Tracked(table: Table, tasks: map<TaskId, Task>, f: FutId)
    requires f in table.futs
  {
    && f < table.nextFut && f in table.owner && table.owner[f] in tasks
    && (table.futs[f].None? ==> LeadOf(tasks[table.owner[f]].pc) == Some(f))
  }

  ghost predicate AllLed(table: Table, tasks: map<TaskId, Task>) {
    forall slot :: slot in table.inflight ==> Led(table, tasks, slot, table.inflight[slot])
  }

  ghost predicate AllLead(table: Table, tasks: map<TaskId, Task>) {
    forall t :: t in tasks && LeadOf(tasks[t].pc).Some? ==> Leads(table, t, tasks[t], LeadOf(tasks[t].pc).value)
  }

  ghost predicate AllJoined(table: Table, tasks: map<TaskId, Task>) {
    forall t :: t in tasks && tasks[t].pc.Join? ==> Joined(table, tasks, tasks[t], tasks[t].pc.fut)
  }

  ghost predicate AllTracked(table: Table, tasks: map<TaskId, Task>) {
    forall f :: f in table.futs ==> Tracked(table, tasks, f)
  }

  ghost predicate Consistent(table: Table, tasks: map<TaskId, Task>) {
    AllLed(table, tasks) && AllLead(table, tasks) && AllJoined(table, tasks) && AllTracked(table, tasks)
  }

  ghost predicate Inv(s: State) {
    Consistent(s.table, s.tasks)
  }

  lemma InitInv(s: State)
    requires Init(s)
    ensures Inv(s)
  {}

  /** A step that leaves the table alone keeps the task's lead. */
  lemma LeadKept(s: State, task: Task, io: Io)
    requires !task.pc.Register? && !task.pc.Resolve? && !task.pc.Pop?
    ensures LeadOf(NextPc(s, task, io)) == LeadOf(task.pc)
    ensures !NextPc(s, task, io).Pop? && (NextPc(s, task, io).Join? ==> NextPc(s, task, io) == task.pc)
  {}

  lemma QuietMove(table: Table, tasks: map<TaskId, Task>, t: TaskId, pc: Pc)
    requires Consistent(table, tasks) && t in tasks
    requires LeadOf(pc) == LeadOf(tasks[t].pc)
    requires !pc.Pop? && !tasks[t].pc.Pop? && (pc.Join? ==> pc == tasks[t].pc)
    ensures Consistent(table, tasks[t := tasks[t].(pc := pc)])
  {}

  lemma JoinMove(table: Table, tasks: map<TaskId, Task>, t: TaskId)
    requires Consistent(table, tasks) && t in tasks && tasks[t].pc.Register? && SlotOf(tasks[t]) in table.inflight
    ensures Consistent(table, tasks[t := tasks[t].(pc := Join(table.inflight[SlotOf(tasks[t])]))])
  {}

  lemma CreateAllLed(table: Table, tasks: map<TaskId, Task>, t: TaskId)
    requires Consistent(table, tasks) && t in tasks && tasks[t].pc.Register? && SlotOf(tasks[t]) !in table.inflight
    ensures AllLed(NextTable(table, t, tasks[t]), tasks[t := tasks[t].(pc := Acquire(table.nextFut))])
  {}

  lemma CreateAllLead(table: Table, tasks: map<TaskId, Task>, t: TaskId)
    requires Consistent(table, tasks) && t in tasks && tasks[t].pc.Register? && SlotOf(tasks[t]) !in table.inflight
    ensures AllLead(NextTable(table, t, tasks[t]), tasks[t := tasks[t].(pc := Acquire(table.nextFut))])
  {}

  lemma CreateAllJoined(table: Table, tasks: map<TaskId, Task>, t: TaskId)
    requires Consistent(table, tasks) && t in tasks && tasks[t].pc.Register? && SlotOf(tasks[t]) !in table.inflight
    ensures AllJoined(NextTable(table, t, tasks[t]), tasks[t := tasks[t].(pc := Acquire(table.nextFut))])
  {}

  lemma CreateAllTracked(table: Table, tasks: map<TaskId, Task>, t: TaskId)
    requires Consistent(table, tasks) && t in tasks && tasks[t].pc.Register? && SlotOf(tasks[t]) !in table.inflight
    ensures AllTracked(NextTable(table, t, tasks[t]), tasks[t := tasks[t].(pc := Acquire(table.nextFut))])
  {}

  /** A task that registers a future leads it. */
  lemma CreateMove(table: Table, tasks: map<TaskId, Task>, t: TaskId)
    requires Consistent(table, tasks) && t in tasks && tasks[t].pc.Register? && SlotOf(tasks[t]) !in table.inflight
    ensures Consistent(NextTable(table, t, tasks[t]), tasks[t := tasks[t].(pc := Acquire(table.nextFut))])
  {
    hide AllLed, AllLead, AllJoined, AllTracked;
    CreateAllLed(table, tasks, t);
    CreateAllLead(table, tasks, t);
    CreateAllJoined(table, tasks, t);
    CreateAllTracked(table, tasks, t);
  }

  lemma ResolveAllLed(table: Table, tasks: map<TaskId, Task>, t: TaskId)
    requires Consistent(table, tasks) && t in tasks && tasks[t].pc.Resolve?
    ensures AllLed(NextTable(table, t, tasks[t]), tasks[t := tasks[t].(pc := Pop(tasks[t].pc.fut, tasks[t].pc.out))])
  {}

  lemma ResolveAllLead(table: Table, tasks: map<TaskId, Task>, t: TaskId)
    requires Consistent(table, tasks) && t in tasks && tasks[t].pc.Resolve?
    ensures AllLead(NextTable(table, t, tasks[t]), tasks[t := tasks[t].(pc := Pop(tasks[t].pc.fut, tasks[t].pc.out))])
  {}

  lemma ResolveAllJoined(table: Table, tasks: map<TaskId, Task>, t: TaskId)
    requires Consistent(table, tasks) && t in tasks && tasks[t].pc.Resolve?
    ensures AllJoined(NextTable(table, t, tasks[t]), tasks[t := tasks[t].(pc := Pop(tasks[t].pc.fut, tasks[t].pc.out))])
  {}

  lemma ResolveAllTracked(table: Table, tasks: map<TaskId, Task>, t: TaskId)
    requires Consistent(table, tasks) && t in tasks && tasks[t].pc.Resolve?
    ensures AllTracked(NextTable(table, t, tasks[t]), tasks[t := tasks[t].(pc := Pop(tasks[t].pc.fut, tasks[t].pc.out))])
  {}

  /** A leader that resolves its future is about to pop it. */
  lemma ResolveMove(table: Table, tasks: map<TaskId, Task>, t: TaskId)
    requires Consistent(table, tasks) && t in tasks && tasks[t].pc.Resolve?
    ensures Consistent(NextTable(table, t, tasks[t]), tasks[t := tasks[t].(pc := Pop(tasks[t].pc.fut, tasks[t].pc.out))])
  {
    hide AllLed, AllLead, AllJoined, AllTracked;
    ResolveAllLed(table, tasks, t);
    ResolveAllLead(table, tasks, t);
    ResolveAllJoined(table, tasks, t);
    ResolveAllTracked(table, tasks, t);
  }

  lemma PopAllLed(table: Table, tasks: map<TaskId, Task>, t: TaskId)
    requires Consistent(table, tasks) && t in tasks && tasks[t].pc.Pop?
    ensures AllLed(NextTable(table, t, tasks[t]), tasks[t := tasks[t].(pc := Finished(tasks[t].pc.out))])
  {}

  lemma PopAllLead(table: Table, tasks: map<TaskId, Task>, t: TaskId)
    requires Consistent(table, tasks) && t in tasks && tasks[t].pc.Pop?
    ensures AllLead(NextTable(table, t, tasks[t]), tasks[t := tasks[t].(pc := Finished(tasks[t].pc.out))])
  {}

  lemma PopAllJoined(table: Table, tasks: map<TaskId, Task>, t: TaskId)
    requires Consistent(table, tasks) && t in tasks && tasks[t].pc.Pop?
    ensures AllJoined(NextTable(table, t, tasks[t]), tasks[t := tasks[t].(pc := Finished(tasks[t].pc.out))])
  {}

  lemma PopAllTracked(table: Table, tasks: map<TaskId, Task>, t: TaskId)
    requires Consistent(table, tasks) && t in tasks && tasks[t].pc.Pop?
    ensures AllTracked(NextTable(table, t, tasks[t]), tasks[t := tasks[t].(pc := Finished(tasks[t].pc.out))])
  {}

  /** A leader that pops its entry leads nothing any more. */
  lemma PopMove(table: Table, tasks: map<TaskId, Task>, t: TaskId)
    requires Consistent(table, tasks) && t in tasks && tasks[t].pc.Pop?
    ensures Consistent(NextTable(table, t, tasks[t]), tasks[t := tasks[t].(pc := Finished(tasks[t].pc.out))])
  {
    hide AllLed, AllLead, AllJoined, AllTracked;
    PopAllLed(table, tasks, t);
    PopAllLead(table, tasks, t);
    PopAllJoined(table, tasks, t);
    PopAllTracked(table, tasks, t);
  }

  lemma NextInv(s: State, step: Step)
    requires Inv(s) && Enabled(s, step)
    ensures Inv(Next(s, step))
  {
    match step
    case Advance(t, io) =>
      var task := s.tasks[t];
      if task.pc.Register? {
        if SlotOf(task) in s.table.inflight { JoinMove(s.table, s.tasks, t); } else { CreateMove(s.table, s.tasks, t); }
      }
      else if task.pc.Resolve? { ResolveMove(s.table, s.tasks, t); }
      else if task.pc.Pop? { PopMove(s.table, s.tasks, t); }
      else {
        LeadKept(s, task, io);
        QuietMove(s.table, s.tasks, t, NextPc(s, task, io));
      }
    case _ =>
  }

  lemma {:induction false} RunInv(s: State, steps: seq<Step>)
    requires Inv(s) && Legal(s, steps)
    ensures Inv(Exec(s, steps))
    decreases |steps|
  {
    if |steps| != 0 {
      NextInv(s, steps[0]);
      RunInv(Next(s, steps[0]), steps[1..]);
    }
  }

  // ---- Main results ----

  ghost predicate Leading(s: State, t: TaskId, slot: (Proc, Key)) {
    t in s.tasks && SlotOf(s.tasks[t]) == slot && LeadOf(s.tasks[t].pc).Some?
  }

  /** In every reachable state the table has an entry for a key exactly when one task of that process leads
      it, and never two: so no process runs two single-flight factories for one key at once. */
  lemma OneLeaderPerEntry(init: State, steps: seq<Step>, slot: (Proc, Key))
    requires Init(init) && Legal(init, steps)
    ensures var s := Exec(init, steps);
      && (slot in s.table.inflight <==> exists t :: Leading(s, t, slot))
      && (forall t, u :: Leading(s, t, slot) && Leading(s, u, slot) ==> t == u)
  {
    InitInv(init);
    RunInv(init, steps);
    var s := Exec(init, steps);
    if slot in s.table.inflight {
      assert Leading(s, s.table.owner[s.table.inflight[slot]], slot);
    }
  }

  /** No joiner waits on an orphan: the future it awaits is resolved, or a live leader of the same key in the
      same process still holds it, and that leader can take a step whatever Redis does. */
  lemma JoinersHaveALeader(init: State, steps: seq<Step>, t: TaskId)
    requires Init(init) && Legal(init, steps)
    requires var s := Exec(init, steps); t in s.tasks && s.tasks[t].pc.Join?
    ensures var s := Exec(init, steps);
      var f := s.tasks[t].pc.fut;
      && f in s.table.futs
      && (s.table.futs[f].None? ==>
            f in s.table.owner && Leading(s, s.table.owner[f], SlotOf(s.tasks[t]))
            && forall io: Io :: io.result == Value(JNull) ==> Enabled(s, Advance(s.table.owner[f], io)))
  {
    InitInv(init);
    RunInv(init, steps);
  }

  /** No deadlock: while any task is unfinished some task can take a step. */
  lemma NoDeadlock(init: State, steps: seq<Step>, t: TaskId)
    requires Init(init) && Legal(init, steps)
    requires var s := Exec(init, steps); t in s.tasks && !s.tasks[t].pc.Finished?
    ensures exists u, io :: Enabled(Exec(init, steps), Advance(u, io))
  {
    InitInv(init);
    RunInv(init, steps);
    var s := Exec(init, steps);
    var io := Io(false, true, 1, Value(JNull));
    if Enabled(s, Advance(t, io)) {
    } else {
      assert Enabled(s, Advance(s.table.owner[s.tasks[t].pc.fut], io));
    }
  }

  /** An upper bound on the steps a task still has to take. */
  function Rank(task: Task): nat {
    match task.pc
    case Lookup => 10 + |task.legacy|
    case Legacy(i) => 9 + if i < |task.legacy| then |task.legacy| - i else 0
    case Register => 8
    case Acquire(_) => 7
    case Backoff(_) => 6
    case Run(_) => 5
    case Save(_, _) => 4
    case Unlock(_, _, _, _) => 3
    case Resolve(_, _) => 2
    case Migrate(_, _) => 2
    case Retire(_, _) => 1
    case Join(_) => 1
    case Pop(_, _) => 1
    case Finished(_) => 0
  }

  lemma StepLowersRank(s: State, t: TaskId, io: Io)
    requires Enabled(s, Advance(t, io))
    ensures var s' := Next(s, Advance(t, io)); Rank(s'.tasks[t]) < Rank(s.tasks[t])
  {}

  function StepsOf(steps: seq<Step>, t: TaskId): nat {
    if |steps| == 0 then 0
    else (if steps[0].Advance? && steps[0].t == t then 1 else 0) + StepsOf(steps[1..], t)
  }

  /** Whatever the schedule and the failures, a call takes at most ten steps and one for each legacy key. */
  lemma {:induction false} CallsAreBounded(s: State, steps: seq<Step>, t: TaskId)
    requires Legal(s, steps) && t in s.tasks
    ensures var s' := Exec(s, steps); t in s'.tasks && StepsOf(steps, t) + Rank(s'.tasks[t]) <= Rank(s.tasks[t])
    decreases |steps|
  {
    if |steps| != 0 {
      if steps[0].Advance? && steps[0].t == t {
        StepLowersRank(s, t, steps[0].io);
      }
      CallsAreBounded(Next(s, steps[0]), steps[1..], t);
    }
  }
}
