/** The Stockfish analysis queue: enqueue, reuse, reclaim and force, racing against each other and the workers.

    Every statement is one step on the shared job table, and the partial unique index on active jobs guards
    every write: a violating write fails and changes nothing. */
module AnalysisJobs {
  import Totals
  import opened Wrappers

  datatype Status = Queued | Running | Completed | Failed | Cancelled

  datatype Identity = Identity(tenant: nat, fingerprint: string)

  /** A job row.  The last two fields are history: how often the job entered QUEUED, and how often FAILED. */
  datatype Job = Job(ident: Identity, status: Status, user: Option<nat>, queued: nat, failed: nat)

  /** Jobs in the order of their creation; a job is named by its position. */
  type Jobs = seq<Job>

  predicate Active(st: Status) {
    st.Queued? || st.Running? || st.Completed?
  }

  /** The partial unique index `uq_chess_analysis_jobs_tenant_fingerprint_active`. */
  ghost predicate Unique(jobs: Jobs) {
    forall i, j ::
      0 <= i < j < |jobs| && jobs[i].ident == jobs[j].ident ==> !Active(jobs[i].status) || !Active(jobs[j].status)
  }

  /** The newest job of an identity among the active ones, or among the failed ones. */
  function Newest(jobs: Jobs, ident: Identity, active: bool): (hit: Option<nat>)
    ensures hit.Some? ==> hit.value < |jobs| && Matches(jobs[hit.value], ident, active)
    ensures hit.Some? ==> forall j :: hit.value < j < |jobs| ==> !Matches(jobs[j], ident, active)
    ensures hit.None? ==> forall j :: 0 <= j < |jobs| ==> !Matches(jobs[j], ident, active)
  {
    if |jobs| == 0 then None
    else if Matches(jobs[|jobs| - 1], ident, active) then Some(|jobs| - 1)
    else Newest(jobs[..|jobs| - 1], ident, active)
  }

  predicate Matches(job: Job, ident: Identity, active: bool) {
    job.ident == ident && if active then Active(job.status) else job.status.Failed?
  }

  /** May a job of this identity, other than `self`, become active? */
  predicate IndexAllows(jobs: Jobs, ident: Identity, self: Option<nat>) {
    forall j :: 0 <= j < |jobs| && self != Some(j) ==> !Matches(jobs[j], ident, true)
  }

  function NewJob(ident: Identity, user: Option<nat>): Job {
    Job(ident, Queued, user, 1, 0)
  }

  /** The compare-and-set FAILED to QUEUED. */
  function Requeued(job: Job, user: Option<nat>): Job {
    job.(status := Queued, user := if user.Some? then user else job.user, queued := job.queued + 1)
  }

  /** A worker's unconditional status write. */
  function Marked(job: Job, st: Status): Job {
    job.(status := st, failed := if st.Failed? && !job.status.Failed? then job.failed + 1 else job.failed)
  }

  datatype Outcome =
    | Enqueued(job: nat, reused: bool, dispatch: bool)
    | Conflict
    | IntegrityError

  datatype Pc =
    | FindActive
    | FindFailed
    | Reclaim(job: nat)
    | Cancel(job: nat)
    | Insert
    | Owing(job: nat, reused: bool)
    | RefindActive(reclaiming: bool)
    | RefindFailed(reclaiming: bool)
    | Finished(out: Outcome)

  datatype Client = Client(ident: Identity, force: bool, user: Option<nat>, pc: Pc)

  datatype State = State(jobs: Jobs, clients: map<nat, Client>)

  datatype Step =
    | Arrive(c: nat, ident: Identity, force: bool, user: Option<nat>)
    | Run(c: nat)
    | Work(job: nat, st: Status)

  predicate Enabled(s: State, step: Step) {
    match step
    case Arrive(c, _, _, _) => c !in s.clients
    case Run(c) => c in s.clients && !s.clients[c].pc.Finished?
    case Work(j, st) => j < |s.jobs| && (st.Running? || st.Failed? || st.Completed?)
  }

  /** One statement of `enqueue`: what it does to the table, and where the request goes next. */
  function Statement(jobs: Jobs, client: Client): (Jobs, Pc)
    requires !client.pc.Finished?
  {
    var ident := client.ident;
    match client.pc
    case FindActive =>
      (match Newest(jobs, ident, true)
       case Some(j) => (jobs, if client.force then Cancel(j) else Finished(Enqueued(j, true, false)))
       case None => (jobs, FindFailed))
    case FindFailed =>
      (match Newest(jobs, ident, false)
       case Some(j) => (jobs, if client.force then Insert else Reclaim(j))
       case None => (jobs, Insert))
    case Reclaim(j) =>
      if j >= |jobs| || !jobs[j].status.Failed? then (jobs, RefindActive(true))
      else if !IndexAllows(jobs, jobs[j].ident, Some(j)) then (jobs, Finished(IntegrityError))
      else (jobs[j := Requeued(jobs[j], client.user)], Owing(j, true))
    case Cancel(j) => (if j < |jobs| then jobs[j := jobs[j].(status := Cancelled)] else jobs, Insert)
    case Insert =>
      if IndexAllows(jobs, ident, None) then (jobs + [NewJob(ident, client.user)], Owing(|jobs|, false))
      else (jobs, RefindActive(false))
    case Owing(j, reused) => (jobs, Finished(Enqueued(j, reused, true)))
    case RefindActive(reclaiming) =>
      (match Newest(jobs, ident, true)
       case Some(j) => (jobs, Finished(Enqueued(j, true, false)))
       case None => (jobs, RefindFailed(reclaiming)))
    case RefindFailed(reclaiming) =>
      (match Newest(jobs, ident, false)
       case Some(j) => (jobs, Finished(Enqueued(j, true, false)))
       case None => (jobs, Finished(if reclaiming then Conflict else IntegrityError)))
  }

  function Next(s: State, step: Step): State
    requires Enabled(s, step)
  {
    match step
    case Arrive(c, ident, force, user) => s.(clients := s.clients[c := Client(ident, force, user, FindActive)])
    case Run(c) =>
      var (jobs, pc) := Statement(s.jobs, s.clients[c]);
      State(jobs, s.clients[c := s.clients[c].(pc := pc)])
    case Work(j, st) =>
      if Active(st) && !IndexAllows(s.jobs, s.jobs[j].ident, Some(j)) then s
      else s.(jobs := s.jobs[j := Marked(s.jobs[j], st)])
  }

  predicate Legal(s: State, steps: seq<Step>)
    decreases |steps|
  {
    |steps| == 0 || (Enabled(s, steps[0]) && Legal(Next(s, steps[0]), steps[1..]))
  }

  function Exec(s: State, steps: seq<Step>): State
    requires Legal(s, steps)
    decreases |steps|
  {
    if |steps| == 0 then s else Exec(Next(s, steps[0]), steps[1..])
  }

  // ---- The invariant ----

  /** The job a request is about to act on, or has answered with. */
  function Subject(pc: Pc): Option<nat> {
    match pc
    case Reclaim(j) => Some(j)
    case Cancel(j) => Some(j)
    case Owing(j, _) => Some(j)
    case Finished(Enqueued(j, _, _)) => Some(j)
    case _ => None
  }

  predicate Owes(client: Client, j: nat) {
    client.pc.Owing? && client.pc.job == j
  }

  /** The outcome told its caller to dispatch job `j`. */
  predicate Told(client: Client, j: nat) {
    client.pc.Finished? && client.pc.out.Enqueued? && client.pc.out.job == j && client.pc.out.dispatch
  }

  predicate Queues(client: Client, j: nat) {
    Owes(client, j) || Told(client, j)
  }

  /** The requests that queued job `j`: they have told their caller to dispatch it, or are about to. */
  function Queuers(clients: map<nat, Client>, j: nat): set<nat> {
    set c | c in clients && Queues(clients[c], j)
  }

  /** The requests whose outcome says to dispatch job `j`. */
  function Dispatchers(clients: map<nat, Client>, j: nat): set<nat> {
    set c | c in clients && Told(clients[c], j)
  }

  ghost predicate OnOwnIdentity(jobs: Jobs, client: Client) {
    Subject(client.pc).Some? ==> Subject(client.pc).value < |jobs| && jobs[Subject(client.pc).value].ident == client.ident
  }

  /** The books of job `j`: its queueings are as many as its queuers, and each after the first used up a failure. */
  ghost predicate Accounted(job: Job, clients: map<nat, Client>, j: nat) {
    && job.queued == |Queuers(clients, j)|
    && job.queued + (if job.status.Failed? then 1 else 0) <= 1 + job.failed
  }

  ghost predicate Inv(s: State) {
    && Unique(s.jobs)
    && (forall c :: c in s.clients ==> OnOwnIdentity(s.jobs, s.clients[c]))
    && (forall j :: 0 <= j < |s.jobs| ==> Accounted(s.jobs[j], s.clients, j))
  }

  lemma QueuersMoved(clients: map<nat, Client>, c: nat, client: Client, j: nat)
    ensures Queuers(clients[c := client], j) ==
      if Queues(client, j) then Queuers(clients, j) + {c} else Queuers(clients, j) - {c}
  {}

  /** A statement keeps the index, moves no job to another identity, and only ever adds jobs at the end. */
  lemma StatementKeepsTable(jobs: Jobs, client: Client)
    requires Unique(jobs) && !client.pc.Finished?
    ensures var jobs' := Statement(jobs, client).0;
      && Unique(jobs')
      && |jobs| <= |jobs'|
      && forall j :: 0 <= j < |jobs| ==> jobs'[j].ident == jobs[j].ident
  {}

  lemma StatementKeepsIdentity(jobs: Jobs, client: Client)
    requires OnOwnIdentity(jobs, client) && !client.pc.Finished?
    ensures var (jobs', pc) := Statement(jobs, client); OnOwnIdentity(jobs', client.(pc := pc))
  {}

  /** What a statement does to one row: queue a failed one on the request's account, or leave the books alone. */
  lemma StatementOnRow(jobs: Jobs, client: Client, j: nat)
    requires j < |jobs| && !client.pc.Finished?
    ensures var (jobs', pc) := Statement(jobs, client);
      var client' := client.(pc := pc);
      && j < |jobs'|
      && if Queues(client, j) == Queues(client', j) then SameBooks(jobs[j], jobs'[j])
         else Queues(client', j) && jobs[j].status.Failed? && jobs'[j] == Requeued(jobs[j], client.user)
  {}

  predicate SameBooks(job: Job, job': Job) {
    job'.queued == job.queued && job'.failed == job.failed && (job'.status.Failed? ==> job.status.Failed?)
  }

  lemma BooksStayRight(job: Job, job': Job, clients: map<nat, Client>, c: nat, client: Client, j: nat)
    requires Accounted(job, clients, j)
    requires var queued := c in clients && Queues(clients[c], j);
      if queued == Queues(client, j) then SameBooks(job, job')
      else Queues(client, j) && job.status.Failed? && exists user :: job' == Requeued(job, user)
    ensures Accounted(job', clients[c := client], j)
  {
    QueuersMoved(clients, c, client, j);
    var before := Queuers(clients, j);
    if c in before {
      assert before + {c} == before;
    } else {
      assert before - {c} == before;
    }
  }

  lemma StatementAccounts(s: State, c: nat, j: nat)
    requires Inv(s) && Enabled(s, Run(c))
    requires j < |Next(s, Run(c)).jobs|
    ensures var s' := Next(s, Run(c)); Accounted(s'.jobs[j], s'.clients, j)
  {
    var client := s.clients[c];
    var (jobs', pc) := Statement(s.jobs, client);
    var client' := client.(pc := pc);
    if j < |s.jobs| {
      assert Accounted(s.jobs[j], s.clients, j);
      StatementOnRow(s.jobs, client, j);
      BooksStayRight(s.jobs[j], jobs'[j], s.clients, c, client', j);
    } else {
      NewRowAccounts(s, c);
    }
  }

  lemma NewRowAccounts(s: State, c: nat)
    requires Inv(s) && Enabled(s, Run(c)) && |s.jobs| < |Next(s, Run(c)).jobs|
    ensures var s' := Next(s, Run(c));
      |s'.jobs| == |s.jobs| + 1 && Accounted(s'.jobs[|s.jobs|], s'.clients, |s.jobs|)
  {
    var j := |s.jobs|;
    forall d | d in s.clients ensures !Queues(s.clients[d], j) { assert OnOwnIdentity(s.jobs, s.clients[d]); }
    assert Queuers(s.clients, j) == {};
    QueuersMoved(s.clients, c, Next(s, Run(c)).clients[c], j);
  }

  lemma RunKeepsInv(s: State, c: nat)
    requires Inv(s) && Enabled(s, Run(c))
    ensures Inv(Next(s, Run(c)))
  {
    var s' := Next(s, Run(c));
    StatementKeepsTable(s.jobs, s.clients[c]);
    StatementKeepsIdentity(s.jobs, s.clients[c]);
    forall j | 0 <= j < |s'.jobs| ensures Accounted(s'.jobs[j], s'.clients, j) { StatementAccounts(s, c, j); }
  }

  lemma ArriveKeepsInv(s: State, step: Step)
    requires Inv(s) && step.Arrive? && Enabled(s, step)
    ensures Inv(Next(s, step))
  {
    var s' := Next(s, step);
    forall j | 0 <= j < |s'.jobs| ensures Accounted(s'.jobs[j], s'.clients, j) {
      assert Accounted(s.jobs[j], s.clients, j);
      BooksStayRight(s.jobs[j], s.jobs[j], s.clients, step.c, s'.clients[step.c], j);
    }
  }

  lemma WorkKeepsInv(s: State, step: Step)
    requires Inv(s) && step.Work? && Enabled(s, step)
    ensures Inv(Next(s, step))
  {
    var s' := Next(s, step);
    forall j | 0 <= j < |s'.jobs| ensures Accounted(s'.jobs[j], s'.clients, j) {
      assert Accounted(s.jobs[j], s.clients, j);
    }
    forall c | c in s'.clients ensures OnOwnIdentity(s'.jobs, s'.clients[c]) {
      assert OnOwnIdentity(s.jobs, s.clients[c]);
    }
  }

  lemma NextInv(s: State, step: Step)
    requires Inv(s) && Enabled(s, step)
    ensures Inv(Next(s, step))
  {
    match step
    case Arrive(_, _, _, _) => ArriveKeepsInv(s, step);
    case Run(c) => RunKeepsInv(s, c);
    case Work(_, _) => WorkKeepsInv(s, step);
  }

  lemma {:induction false} RunInv(s: State, steps: seq<Step>)
    requires Inv(s) && Legal(s, steps)
    ensures Inv(Exec(s, steps))
    decreases |steps|
  {
    if |steps| != 0 {
      NextInv(s, steps[0]);
      RunInv(Next(s, steps[0]), steps[1..]);
    }
  }

  // ---- Main results, over every run from an empty table ----

  const EMPTY := State([], map[])

  /** At most one queued, running or completed job for each (tenant, fingerprint). */
  lemma AtMostOneActiveJob(steps: seq<Step>)
    requires Legal(EMPTY, steps)
    ensures Unique(Exec(EMPTY, steps).jobs)
  {
    RunInv(EMPTY, steps);
  }

  /** The steps of a run after which job `j` has this status and before which it had not, or was not there. */
  function Entries(s: State, steps: seq<Step>, j: nat, st: Status): nat
    requires Legal(s, steps)
    decreases |steps|
  {
    if |steps| == 0 then 0
    else
      var s' := Next(s, steps[0]);
      (if Has(s', j, st) && !Has(s, j, st) then 1 else 0) + Entries(s', steps[1..], j, st)
  }

  predicate Has(s: State, j: nat, st: Status) {
    j < |s.jobs| && s.jobs[j].status == st
  }

  lemma StepCounts(s: State, step: Step, j: nat)
    requires Enabled(s, step) && j < |Next(s, step).jobs|
    ensures var s' := Next(s, step);
      && |s.jobs| <= |s'.jobs|
      && s'.jobs[j].queued ==
           (if j < |s.jobs| then s.jobs[j].queued else 0) + (if Has(s', j, Queued) && !Has(s, j, Queued) then 1 else 0)
      && s'.jobs[j].failed ==
           (if j < |s.jobs| then s.jobs[j].failed else 0) + (if Has(s', j, Failed) && !Has(s, j, Failed) then 1 else 0)
  {}

  lemma JobsStay(s: State, step: Step)
    requires Enabled(s, step)
    ensures |s.jobs| <= |Next(s, step).jobs|
  {}

  /** The history fields of a job count the times it entered QUEUED and FAILED. */
  lemma {:induction false} HistoryCounts(s: State, steps: seq<Step>, j: nat)
    requires Legal(s, steps) && j < |Exec(s, steps).jobs|
    ensures var job := Exec(s, steps).jobs[j];
      && job.queued == (if j < |s.jobs| then s.jobs[j].queued else 0) + Entries(s, steps, j, Queued)
      && job.failed == (if j < |s.jobs| then s.jobs[j].failed else 0) + Entries(s, steps, j, Failed)
    decreases |steps|
  {
    hide Next, Enabled;
    if |steps| != 0 {
      HistoryCounts(Next(s, steps[0]), steps[1..], j);
      JobsStay(s, steps[0]);
      if j < |Next(s, steps[0]).jobs| { StepCounts(s, steps[0], j); }
    }
  }

  /** The outcomes that say "dispatch" are never more than the times the job entered QUEUED, and exactly as many
      once the requests have finished: no queueing is lost and none is dispatched twice. */
  lemma EveryQueueingIsDispatchedOnce(steps: seq<Step>, j: nat)
    requires Legal(EMPTY, steps) && j < |Exec(EMPTY, steps).jobs|
    ensures var s := Exec(EMPTY, steps);
      var queueings := Entries(EMPTY, steps, j, Queued);
      && |Dispatchers(s.clients, j)| <= queueings
      && ((forall c :: c in s.clients ==> s.clients[c].pc.Finished?) ==> |Dispatchers(s.clients, j)| == queueings)
  {
    RunInv(EMPTY, steps);
    HistoryCounts(EMPTY, steps, j);
    hide Entries;
    var s := Exec(EMPTY, steps);
    assert Accounted(s.jobs[j], s.clients, j);
    SubsetIsSmaller(Dispatchers(s.clients, j), Queuers(s.clients, j));
    if forall c :: c in s.clients ==> s.clients[c].pc.Finished? {
      assert Dispatchers(s.clients, j) == Queuers(s.clients, j);
    }
  }

  lemma SubsetIsSmaller(a: set<nat>, b: set<nat>)
    requires a <= b
    ensures |a| <= |b|
  {
    assert b == a + (b - a);
  }

  /** However many retries race, a job is dispatched at most once more often than it entered FAILED. */
  lemma OneRetryForEachFailure(steps: seq<Step>, j: nat)
    requires Legal(EMPTY, steps) && j < |Exec(EMPTY, steps).jobs|
    ensures |Dispatchers(Exec(EMPTY, steps).clients, j)| <= 1 + Entries(EMPTY, steps, j, Failed)
  {
    RunInv(EMPTY, steps);
    HistoryCounts(EMPTY, steps, j);
    EveryQueueingIsDispatchedOnce(steps, j);
    assert Accounted(Exec(EMPTY, steps).jobs[j], Exec(EMPTY, steps).clients, j);
  }

  /** An answered request was answered with a job of its own tenant and fingerprint. */
  lemma AnswersMatchTheRequest(steps: seq<Step>, c: nat)
    requires Legal(EMPTY, steps) && c in Exec(EMPTY, steps).clients
    requires var pc := Exec(EMPTY, steps).clients[c].pc; pc.Finished? && pc.out.Enqueued?
    ensures var s := Exec(EMPTY, steps);
      var j := s.clients[c].pc.out.job;
      j < |s.jobs| && s.jobs[j].ident == s.clients[c].ident
  {
    RunInv(EMPTY, steps);
  }

  // ---- Why a request was answered as it was ----

  ghost predicate AnyActive(jobs: Jobs, ident: Identity) {
    exists j :: 0 <= j < |jobs| && jobs[j].ident == ident
      && (jobs[j].status == Queued || jobs[j].status == Running || jobs[j].status == Completed)
  }

  ghost predicate AnyFailed(jobs: Jobs, ident: Identity) {
    exists j :: 0 <= j < |jobs| && jobs[j].ident == ident && jobs[j].status == Failed
  }

  /** A request that looks for an active job while there is one, at first or again after a lost race, is answered
      with that very job, which it need not dispatch. */
  lemma ActiveJobIsTheAnswer(steps: seq<Step>, c: nat, j: nat)
    requires Legal(EMPTY, steps) && c in Exec(EMPTY, steps).clients && j < |Exec(EMPTY, steps).jobs|
    requires var s := Exec(EMPTY, steps);
      var client := s.clients[c];
      && s.jobs[j].ident == client.ident
      && (s.jobs[j].status == Queued || s.jobs[j].status == Running || s.jobs[j].status == Completed)
      && (client.pc.RefindActive? || (client.pc.FindActive? && !client.force))
    ensures Next(Exec(EMPTY, steps), Run(c)).clients[c].pc == Finished(Enqueued(j, true, false))
  {
    AtMostOneActiveJob(steps);
  }

  /** One statement of a request: where the request was, and the table before and after. */
  datatype Look = Look(pc: Pc, before: Jobs, after: Jobs)

  /** The statements of request `c` in a run, in order. */
  function Looks(s: State, steps: seq<Step>, c: nat): seq<Look>
    requires Legal(s, steps)
    decreases |steps|
  {
    if |steps| == 0 then []
    else
      var s' := Next(s, steps[0]);
      (if steps[0] == Run(c) then [Look(s.clients[c].pc, s.jobs, s'.jobs)] else []) + Looks(s', steps[1..], c)
  }

  ghost predicate SawNoneActive(looks: seq<Look>, k: int, ident: Identity) {
    0 <= k < |looks| && !AnyActive(looks[k].before, ident)
  }

  ghost predicate SawNoneFailed(looks: seq<Look>, k: int, ident: Identity) {
    0 <= k < |looks| && !AnyFailed(looks[k].before, ident)
  }

  /** The request came too late: to reclaim a job that has left FAILED, or to insert beside an active one. */
  ghost predicate CameTooLate(looks: seq<Look>, k: int, ident: Identity, reclaiming: bool) {
    && 0 <= k < |looks|
    && var look := looks[k];
       if reclaiming
       then look.pc.Reclaim? && look.pc.job < |look.before| && look.before[look.pc.job].status != Failed
       else look.pc.Insert? && AnyActive(look.before, ident)
  }

  ghost predicate LostRace(looks: seq<Look>, ident: Identity, reclaiming: bool) {
    exists k :: CameTooLate(looks, k, ident, reclaiming)
  }

  ghost predicate LostRaceToNone(looks: seq<Look>, ident: Identity, reclaiming: bool) {
    exists k, l :: CameTooLate(looks, k, ident, reclaiming) && SawNoneActive(looks, l, ident) && k < l
  }

  ghost predicate LostRaceToNobody(looks: seq<Look>, ident: Identity, reclaiming: bool) {
    exists k, l, m ::
      CameTooLate(looks, k, ident, reclaiming) && SawNoneActive(looks, l, ident) && SawNoneFailed(looks, m, ident)
      && k < l < m
  }

  /** The index refused to requeue a failed job beside an active one. */
  ghost predicate ReclaimRefused(looks: seq<Look>, k: int, ident: Identity) {
    && 0 <= k < |looks|
    && var look := looks[k];
       && look.pc.Reclaim? && look.pc.job < |look.before| && look.before[look.pc.job].status == Failed
       && AnyActive(look.before, ident) && look.after == look.before
  }

  /** The statement queued job `j`, with no active job of the identity beside it: a new job, or a failed one that a
      request without force reclaimed. */
  ghost predicate QueuedIt(looks: seq<Look>, k: int, client: Client, j: nat, reused: bool) {
    && 0 <= k < |looks|
    && var look := looks[k];
       && !AnyActive(look.before, client.ident)
       && j < |look.after| && look.after[j].ident == client.ident && look.after[j].status == Queued
       && if reused then !client.force && |look.after| == |look.before| && look.before[j].status == Failed
          else j == |look.before| && |look.after| == j + 1 && look.after[j].user == client.user
  }

  /** The statement found job `j` of the identity: active, or failed after an earlier one had found none active. */
  ghost predicate FoundIt(looks: seq<Look>, k: int, ident: Identity, j: nat) {
    && 0 <= k < |looks|
    && var jobs := looks[k].before;
       && j < |jobs| && jobs[j].ident == ident
       && (jobs[j].status == Queued || jobs[j].status == Running || jobs[j].status == Completed
           || (jobs[j].status == Failed && exists l :: SawNoneActive(looks, l, ident) && l < k))
  }

  /** What the statements of a request were up to now, by where it stands. */
  ghost predicate Explained(looks: seq<Look>, client: Client) {
    match client.pc
    case FindActive => true
    case FindFailed => exists k :: SawNoneActive(looks, k, client.ident)
    case Reclaim(_) => !client.force
    case Cancel(_) => client.force
    case Insert => true
    case Owing(j, reused) => exists k :: QueuedIt(looks, k, client, j, reused)
    case RefindActive(reclaiming) => LostRace(looks, client.ident, reclaiming) && (reclaiming ==> !client.force)
    case RefindFailed(reclaiming) => LostRaceToNone(looks, client.ident, reclaiming) && (reclaiming ==> !client.force)
    case Finished(out) => Justified(looks, client, out)
  }

  ghost predicate Justified(looks: seq<Look>, client: Client, out: Outcome) {
    match out
    case Enqueued(j, reused, dispatch) =>
      if dispatch then exists k :: QueuedIt(looks, k, client, j, reused)
      else
        && reused && (exists k :: FoundIt(looks, k, client.ident, j))
        && (client.force ==> LostRace(looks, client.ident, false))
    case Conflict => LostRaceToNobody(looks, client.ident, true)
    case IntegrityError =>
      LostRaceToNobody(looks, client.ident, false) || exists k :: ReclaimRefused(looks, k, client.ident)
  }

  lemma ActiveExactlyWhenFound(jobs: Jobs, ident: Identity)
    ensures AnyActive(jobs, ident) <==> Newest(jobs, ident, true).Some?
    ensures AnyFailed(jobs, ident) <==> Newest(jobs, ident, false).Some?
    ensures AnyActive(jobs, ident) <==> !IndexAllows(jobs, ident, None)
  {
    if j :| 0 <= j < |jobs| && Matches(jobs[j], ident, true) { assert AnyActive(jobs, ident); }
    if j :| 0 <= j < |jobs| && Matches(jobs[j], ident, false) { assert AnyFailed(jobs, ident); }
    if AnyActive(jobs, ident) {
      var j :| 0 <= j < |jobs| && jobs[j].ident == ident
        && (jobs[j].status == Queued || jobs[j].status == Running || jobs[j].status == Completed);
      assert Matches(jobs[j], ident, true);
    }
    if AnyFailed(jobs, ident) {
      var j :| 0 <= j < |jobs| && jobs[j].ident == ident && jobs[j].status == Failed;
      assert Matches(jobs[j], ident, false);
    }
  }

  /** What was met stays met. */
  lemma LooksStay(looks: seq<Look>, look: Look, client: Client, j: nat, reused: bool, k: int)
    ensures var more := looks + [look];
      && (SawNoneActive(looks, k, client.ident) ==> SawNoneActive(more, k, client.ident))
      && (CameTooLate(looks, k, client.ident, true) ==> CameTooLate(more, k, client.ident, true))
      && (CameTooLate(looks, k, client.ident, false) ==> CameTooLate(more, k, client.ident, false))
      && (QueuedIt(looks, k, client, j, reused) ==> QueuedIt(more, k, client, j, reused))
  {
    hide AnyActive, AnyFailed;
  }

  /** What a look for a job adds. */
  lemma LookAdds(looks: seq<Look>, jobs: Jobs, client: Client)
    ensures var more := looks + [Look(client.pc, jobs, jobs)];
      var ident := client.ident;
      var active, failed := Newest(jobs, ident, true), Newest(jobs, ident, false);
      && (forall k :: SawNoneActive(looks, k, ident) ==> SawNoneActive(more, k, ident) && k < |looks|)
      && (forall k, r :: CameTooLate(looks, k, ident, r) ==> CameTooLate(more, k, ident, r) && k < |looks|)
      && (if active.Some? then FoundIt(more, |looks|, ident, active.value) else SawNoneActive(more, |looks|, ident))
      && (if failed.Some? then (forall l :: SawNoneActive(more, l, ident) && l < |looks| ==>
                                  FoundIt(more, |looks|, ident, failed.value))
          else SawNoneFailed(more, |looks|, ident))
  {
    var ident := client.ident;
    ActiveExactlyWhenFound(jobs, ident);
    assert (looks + [Look(client.pc, jobs, jobs)])[|looks|].before == jobs;
    forall k, r | CameTooLate(looks, k, ident, r)
      ensures CameTooLate(looks + [Look(client.pc, jobs, jobs)], k, ident, r)
    {
      LooksStay(looks, Look(client.pc, jobs, jobs), client, 0, false, k);
    }
    hide AnyActive, AnyFailed, CameTooLate;
  }

  /** The statements that look for a job at first. */
  lemma LookingIsExplained(looks: seq<Look>, jobs: Jobs, client: Client)
    requires client.pc.FindActive? || client.pc.FindFailed?
    requires Explained(looks, client)
    ensures var (jobs', pc) := Statement(jobs, client);
      Explained(looks + [Look(client.pc, jobs, jobs')], client.(pc := pc))
  {
    LookAdds(looks, jobs, client);
    hide SawNoneActive, SawNoneFailed, CameTooLate, FoundIt;
  }

  /** The statements that look again. */
  lemma LookingAgainIsExplained(looks: seq<Look>, jobs: Jobs, client: Client)
    requires client.pc.RefindActive? || client.pc.RefindFailed?
    requires Explained(looks, client)
    ensures var (jobs', pc) := Statement(jobs, client);
      Explained(looks + [Look(client.pc, jobs, jobs')], client.(pc := pc))
  {
    LookAdds(looks, jobs, client);
    hide SawNoneActive, SawNoneFailed, CameTooLate, FoundIt;
    if client.pc.RefindFailed? {
      var k, l :| CameTooLate(looks, k, client.ident, client.pc.reclaiming) && SawNoneActive(looks, l, client.ident) && k < l;
    }
  }

  /** The statements that write. */
  lemma WritingIsExplained(looks: seq<Look>, jobs: Jobs, client: Client)
    requires client.pc.Reclaim? || client.pc.Cancel? || client.pc.Insert? || client.pc.Owing?
    requires Explained(looks, client) && OnOwnIdentity(jobs, client)
    ensures var (jobs', pc) := Statement(jobs, client);
      Explained(looks + [Look(client.pc, jobs, jobs')], client.(pc := pc))
  {
    var ident := client.ident;
    var (jobs', pc) := Statement(jobs, client);
    var look := Look(client.pc, jobs, jobs');
    var more := looks + [look];
    assert more[|looks|] == look;
    ActiveExactlyWhenFound(jobs, ident);
    match client.pc
    case Reclaim(j) =>
      assert jobs[j].status == Failed ==> (IndexAllows(jobs, ident, Some(j)) <==> IndexAllows(jobs, ident, None));
      hide AnyActive, AnyFailed, IndexAllows;
      if jobs[j].status != Failed {
        assert CameTooLate(more, |looks|, ident, true);
      } else if pc.Owing? {
        assert QueuedIt(more, |looks|, client.(pc := pc), j, true);
      } else {
        assert ReclaimRefused(more, |looks|, ident);
      }
    case Insert =>
      hide AnyActive, AnyFailed, IndexAllows;
      if pc.Owing? {
        assert QueuedIt(more, |looks|, client.(pc := pc), |jobs|, false);
      } else {
        assert CameTooLate(more, |looks|, ident, false);
      }
    case Owing(j, reused) =>
      var k :| QueuedIt(looks, k, client, j, reused);
      LooksStay(looks, look, client, j, reused, k);
      assert QueuedIt(more, k, client.(pc := pc), j, reused);
    case Cancel(_) =>
  }

  lemma StatementIsExplained(looks: seq<Look>, jobs: Jobs, client: Client)
    requires !client.pc.Finished? && Explained(looks, client) && OnOwnIdentity(jobs, client)
    ensures var (jobs', pc) := Statement(jobs, client);
      Explained(looks + [Look(client.pc, jobs, jobs')], client.(pc := pc))
  {
    hide Explained, Statement, OnOwnIdentity;
    if client.pc.FindActive? || client.pc.FindFailed? {
      LookingIsExplained(looks, jobs, client);
    } else if client.pc.RefindActive? || client.pc.RefindFailed? {
      LookingAgainIsExplained(looks, jobs, client);
    } else {
      WritingIsExplained(looks, jobs, client);
    }
  }

  lemma ArrivalIsExplained(looks: seq<Look>, s: State, step: Step, c: nat)
    requires Enabled(s, step) && step != Run(c) && if c in s.clients then Explained(looks, s.clients[c]) else looks == []
    ensures var s' := Next(s, step); if c in s'.clients then Explained(looks, s'.clients[c]) else looks == []
  {
    hide Justified, Statement;
  }

  lemma {:induction false} RunIsExplained(s: State, steps: seq<Step>, c: nat, looks: seq<Look>)
    requires Legal(s, steps) && Inv(s) && if c in s.clients then Explained(looks, s.clients[c]) else looks == []
    ensures var s' := Exec(s, steps); c in s'.clients ==> Explained(looks + Looks(s, steps, c), s'.clients[c])
    decreases |steps|
  {
    hide Explained, Statement, Inv, Legal, Exec;
    RunUnfolds(s, steps);
    if |steps| == 0 {
      assert looks + [] == looks;
    } else {
      var s' := Next(s, steps[0]);
      NextInv(s, steps[0]);
      if steps[0] == Run(c) {
        var look := Look(s.clients[c].pc, s.jobs, s'.jobs);
        OwnIdentity(s, c);
        StatementIsExplained(looks, s.jobs, s.clients[c]);
        RunIsExplained(s', steps[1..], c, looks + [look]);
        assert looks + [look] + Looks(s', steps[1..], c) == looks + Looks(s, steps, c);
      } else {
        ArrivalIsExplained(looks, s, steps[0], c);
        RunIsExplained(s', steps[1..], c, looks);
        assert [] + Looks(s', steps[1..], c) == Looks(s', steps[1..], c);
        assert Looks(s, steps, c) == Looks(s', steps[1..], c);
      }
    }
  }

  lemma RunUnfolds(s: State, steps: seq<Step>)
    requires Legal(s, steps)
    ensures if |steps| == 0 then Exec(s, steps) == s
      else Enabled(s, steps[0]) && Legal(Next(s, steps[0]), steps[1..])
           && Exec(s, steps) == Exec(Next(s, steps[0]), steps[1..])
  {}

  lemma OwnIdentity(s: State, c: nat)
    requires Inv(s) && c in s.clients
    ensures OnOwnIdentity(s.jobs, s.clients[c])
  {}

  /** Main result.  Over every run the answer of a request follows from what its own statements met.  A job to be
      dispatched was queued by the request, with no active job of its identity beside it; a job not to be dispatched
      was found, and a forced request found it only after its insert was refused.  A conflict means that the job to
      reclaim had left FAILED, that no job of the identity was active later, and none failed later still; an
      integrity error means the same after a refused insert, or that the index refused to requeue the failed job. */
  lemma EveryAnswerIsJustified(steps: seq<Step>, c: nat)
    requires Legal(EMPTY, steps) && c in Exec(EMPTY, steps).clients && Exec(EMPTY, steps).clients[c].pc.Finished?
    ensures var client := Exec(EMPTY, steps).clients[c]; Justified(Looks(EMPTY, steps, c), client, client.pc.out)
  {
    RunIsExplained(EMPTY, steps, c, []);
    assert [] + Looks(EMPTY, steps, c) == Looks(EMPTY, steps, c);
  }

  // ---- Every request answers ----

  /** An upper bound on the statements a request has still to run. */
  function Rank(pc: Pc): nat {
    match pc
    case FindActive => 5
    case FindFailed => 4
    case Cancel(_) => 4
    case Reclaim(_) => 3
    case Insert => 3
    case RefindActive(_) => 2
    case RefindFailed(_) => 1
    case Owing(_, _) => 1
    case Finished(_) => 0
  }

  lemma StatementLowersRank(jobs: Jobs, client: Client)
    requires !client.pc.Finished?
    ensures Rank(Statement(jobs, client).1) < Rank(client.pc)
  {
    hide Newest, IndexAllows;
  }

  function StepsOf(steps: seq<Step>, c: nat): nat {
    if |steps| == 0 then 0 else (if steps[0] == Run(c) then 1 else 0) + StepsOf(steps[1..], c)
  }

  /** Whatever the others and the workers do, a request runs at most five statements, and can run one as long as
      it has not answered. */
  lemma {:induction false} RequestsAreBounded(s: State, steps: seq<Step>, c: nat)
    requires Legal(s, steps) && c in s.clients
    ensures var s' := Exec(s, steps);
      && c in s'.clients && StepsOf(steps, c) + Rank(s'.clients[c].pc) <= Rank(s.clients[c].pc) <= 5
      && (Enabled(s', Run(c)) <==> !s'.clients[c].pc.Finished?)
    decreases |steps|
  {
    hide Statement;
    if |steps| != 0 {
      if steps[0] == Run(c) { StatementLowersRank(s.jobs, s.clients[c]); }
      RequestsAreBounded(Next(s, steps[0]), steps[1..], c);
    }
  }

  /** The requests that have not answered. */
  function Unanswered(s: State): set<nat> {
    set c | c in s.clients && !s.clients[c].pc.Finished?
  }

  /** From any state all requests can answer: letting them run, without a new one or a worker, ends with every
      request answered. */
  lemma {:induction false} AllCanAnswer(s: State) returns (steps: seq<Step>)
    ensures Legal(s, steps) && Unanswered(Exec(s, steps)) == {}
    decreases Totals.Total(Ranks(s.clients))
  {
    if Unanswered(s) == {} {
      steps := [];
    } else {
      var c :| c in Unanswered(s);
      var s' := Next(s, Run(c));
      StatementLowersRank(s.jobs, s.clients[c]);
      Totals.TotalIsNatural(Ranks(s.clients));
      Totals.TotalMoves(Ranks(s.clients), c, Rank(s'.clients[c].pc));
      assert Ranks(s'.clients) == Ranks(s.clients)[c := Rank(s'.clients[c].pc)];
      var rest := AllCanAnswer(s');
      steps := [Run(c)] + rest;
      assert steps[1..] == rest;
    }
  }

  /** The statements all requests have still to run, at most. */
  function Ranks(clients: map<nat, Client>): map<nat, int> {
    map c | c in clients :: Rank(clients[c].pc)
  }

  // ---- The uninterrupted request ----

  /** What `enqueue` amounts to when nothing interferes. */
  function EnqueueAlone(jobs: Jobs, ident: Identity, force: bool, user: Option<nat>): (Jobs, Outcome) {
    var active := Newest(jobs, ident, true);
    var failed := Newest(jobs, ident, false);
    if active.Some? && !force then (jobs, Enqueued(active.value, true, false))
    else if active.None? && failed.Some? && !force then
      (jobs[failed.value := Requeued(jobs[failed.value], user)], Enqueued(failed.value, true, true))
    else
      var kept := if active.Some? then jobs[active.value := jobs[active.value].(status := Cancelled)] else jobs;
      (kept + [NewJob(ident, user)], Enqueued(|jobs|, false, true))
  }

  /** The sequential request, in the rows a caller sees.  Forced, it cancels every active job of the identity and
      queues a new one.  Unforced, an active job is the answer and nothing changes; without one the newest failed
      job is queued again, for the new user if there is one; without either a new job is queued. */
  lemma EnqueueInFields(jobs: Jobs, ident: Identity, force: bool, user: Option<nat>, j: nat)
    requires Unique(jobs) && j < |jobs|
    ensures var (jobs', out) := EnqueueAlone(jobs, ident, force, user);
      var active := jobs[j].status == Queued || jobs[j].status == Running || jobs[j].status == Completed;
      && (force || !(AnyActive(jobs, ident) || AnyFailed(jobs, ident)) ==>
            && out == Enqueued(|jobs|, false, true) && |jobs'| == |jobs| + 1
            && jobs'[|jobs|] == Job(ident, Queued, user, 1, 0)
            && jobs'[j] == if jobs[j].ident == ident && active then jobs[j].(status := Cancelled) else jobs[j])
      && (!force && jobs[j].ident == ident && active ==> jobs' == jobs && out == Enqueued(j, true, false))
      && (!force && !AnyActive(jobs, ident) && jobs[j].ident == ident && jobs[j].status == Failed
          && (forall i :: j < i < |jobs| && jobs[i].ident == ident ==> jobs[i].status != Failed) ==>
            && out == Enqueued(j, true, true)
            && jobs' == jobs[j := Job(ident, Queued, if user.None? then jobs[j].user else user,
                                      jobs[j].queued + 1, jobs[j].failed)])
  {
    ActiveExactlyWhenFound(jobs, ident);
    var hit := Newest(jobs, ident, true);
    if hit.Some? { assert Matches(jobs[hit.value], ident, true); }
    if jobs[j].ident == ident && jobs[j].status == Failed { assert Matches(jobs[j], ident, false); }
  }

  function Solo(jobs: Jobs, client: Client, fuel: nat): (Jobs, Pc)
    decreases fuel
  {
    if fuel == 0 || client.pc.Finished? then (jobs, client.pc)
    else
      var (jobs', pc) := Statement(jobs, client);
      Solo(jobs', client.(pc := pc), fuel - 1)
  }

  /** Run without interference the statements of a request are exactly `EnqueueAlone`, and never raise. */
  lemma SoloIsEnqueueAlone(jobs: Jobs, ident: Identity, force: bool, user: Option<nat>)
    requires Unique(jobs)
    ensures var (jobs', out) := EnqueueAlone(jobs, ident, force, user);
      Solo(jobs, Client(ident, force, user, FindActive), 4) == (jobs', Finished(out))
  {
    var active := Newest(jobs, ident, true);
    var failed := Newest(jobs, ident, false);
    var client := Client(ident, force, user, FindActive);
    if active.Some? && !force {
    } else if active.None? && failed.Some? && !force {
      var j := failed.value;
      assert Solo(jobs, client, 4) == Solo(jobs, client.(pc := FindFailed), 3) == Solo(jobs, client.(pc := Reclaim(j)), 2);
      var queued := jobs[j := Requeued(jobs[j], user)];
      assert Solo(jobs, client.(pc := Reclaim(j)), 2) == Solo(queued, client.(pc := Owing(j, true)), 1);
    } else {
      var kept := if active.Some? then jobs[active.value := jobs[active.value].(status := Cancelled)] else jobs;
      if active.Some? {
        assert Solo(jobs, client, 4) == Solo(jobs, client.(pc := Cancel(active.value)), 3);
      } else {
        assert Solo(jobs, client, 4) == Solo(jobs, client.(pc := FindFailed), 3);
      }
      assert Solo(jobs, client, 4) == Solo(kept, client.(pc := Insert), 2);
      assert IndexAllows(kept, ident, None);
      var grown := kept + [NewJob(ident, user)];
      assert Solo(kept, client.(pc := Insert), 2) == Solo(grown, client.(pc := Owing(|kept|, false)), 1);
    }
  }

  /** `hit` stands for its identity: active with no newer active job beside it, or failed with no newer failed
      one and nothing active; and nothing stands only when every job of the identity was cancelled. */
  ghost predicate Stands(jobs: Jobs, ident: Identity, hit: Option<nat>) {
    match hit
    case Some(h) =>
      && h < |jobs| && jobs[h].ident == ident
      && if Active(jobs[h].status) then forall j :: h < j < |jobs| && jobs[j].ident == ident ==> !Active(jobs[j].status)
         else
           && jobs[h].status.Failed?
           && (forall j :: 0 <= j < |jobs| && jobs[j].ident == ident ==> !Active(jobs[j].status))
           && (forall j :: h < j < |jobs| && jobs[j].ident == ident ==> jobs[j].status.Cancelled?)
    case None => forall j :: 0 <= j < |jobs| && jobs[j].ident == ident ==> jobs[j].status.Cancelled?
  }

  /** Only one answer stands: the newest active job, or else the newest failed one. */
  lemma OneJobStands(jobs: Jobs, ident: Identity, hit: Option<nat>)
    requires Stands(jobs, ident, hit)
    ensures hit == if Newest(jobs, ident, true).Some? then Newest(jobs, ident, true) else Newest(jobs, ident, false)
  {
    var active, failed := Newest(jobs, ident, true), Newest(jobs, ident, false);
    if active.Some? {
      assert Matches(jobs[active.value], ident, true);
      assert hit.Some?;
    } else if failed.Some? {
      assert Matches(jobs[failed.value], ident, false);
    }
  }

  /** The answer of a request that lost a race. */
  function Raced(jobs: Jobs, ident: Identity, otherwise: Outcome): Outcome {
    var active := Newest(jobs, ident, true);
    var hit := if active.Some? then active else Newest(jobs, ident, false);
    if hit.Some? then Enqueued(hit.value, true, false) else otherwise
  }

  /** It is the active job, which is the only one, or the newest failed job when none is active, and in neither case
      dispatched; it raises when every job of the identity was cancelled. */
  lemma RacedInFields(jobs: Jobs, ident: Identity, otherwise: Outcome, j: nat)
    requires Unique(jobs) && j < |jobs| && jobs[j].ident == ident
    ensures jobs[j].status == Queued || jobs[j].status == Running || jobs[j].status == Completed ==>
      Raced(jobs, ident, otherwise) == Enqueued(j, true, false)
    ensures
      (jobs[j].status == Failed && !AnyActive(jobs, ident)
       && (forall i :: j < i < |jobs| && jobs[i].ident == ident ==> jobs[i].status == Cancelled)) ==>
      Raced(jobs, ident, otherwise) == Enqueued(j, true, false)
    ensures !AnyActive(jobs, ident) && !AnyFailed(jobs, ident) ==> Raced(jobs, ident, otherwise) == otherwise
  {
    ActiveExactlyWhenFound(jobs, ident);
    if jobs[j].status == Failed { assert Matches(jobs[j], ident, false); }
  }

  /** Another job of the same identity is queued, running or completed. */
  ghost predicate ActiveBeside(jobs: Jobs, j: nat)
    requires j < |jobs|
  {
    exists i ::
      && 0 <= i < |jobs| && i != j && jobs[i].ident == jobs[j].ident
      && (jobs[i].status == Queued || jobs[i].status == Running || jobs[i].status == Completed)
  }

  /** A worker may write RUNNING, COMPLETED and FAILED at any time; the write goes through, and changes no other job,
      unless it would make the job active beside another active one of its identity. */
  lemma WorkWrites(s: State, j: nat, st: Status)
    requires j < |s.jobs| && (st == Running || st == Completed || st == Failed)
    ensures Enabled(s, Work(j, st))
    ensures var s' := Next(s, Work(j, st));
      if st != Failed && ActiveBeside(s.jobs, j) then s' == s
      else
        && |s'.jobs| == |s.jobs| && s'.jobs[j].status == st && s'.jobs[j].ident == s.jobs[j].ident
        && s'.clients == s.clients && forall i :: 0 <= i < |s.jobs| && i != j ==> s'.jobs[i] == s.jobs[i]
  {
    assert ActiveBeside(s.jobs, j) <==> !IndexAllows(s.jobs, s.jobs[j].ident, Some(j));
  }

  /** The service object over the shared table. */
  class Service {
    var jobs: Jobs

    constructor ()
      ensures jobs == [] && Unique(jobs)
    {
      jobs := [];
    }

    /** The job that stands for an identity. */
    method FindMatchingJob(ident: Identity) returns (hit: Option<nat>)
      ensures Stands(jobs, ident, hit)
    {
      hit := Newest(jobs, ident, true);
      if hit.None? { hit := Newest(jobs, ident, false); }
    }

    /** A request that lost a race answers with whatever job now stands for its identity, or raises. */
    method AnswerRaced(ident: Identity, otherwise: Outcome) returns (out: Outcome)
      ensures out == Raced(jobs, ident, otherwise)
    {
      var raced := FindMatchingJob(ident);
      OneJobStands(jobs, ident, raced);
      out := if raced.Some? then Enqueued(raced.value, true, false) else otherwise;
    }

    /** Queue a failed job again, unless it has left FAILED meanwhile; the index may refuse. */
    method ReclaimFailedJob(j: nat, user: Option<nat>) returns (out: Outcome)
      requires Unique(jobs) && j < |jobs|
      modifies this
      ensures Unique(jobs)
      ensures var job := old(jobs[j]);
        var free := IndexAllows(old(jobs), job.ident, Some(j));
        && jobs == (if job.status.Failed? && free then old(jobs)[j := Requeued(job, user)] else old(jobs))
        && out == if !job.status.Failed? then Raced(old(jobs), job.ident, Conflict)
                  else if free then Enqueued(j, true, true) else IntegrityError
    {
      var row := jobs[j];
      if !row.status.Failed? {
        out := AnswerRaced(row.ident, Conflict);
        return;
      }
      if !IndexAllows(jobs, row.ident, Some(j)) { return IntegrityError; }
      jobs := jobs[j := row.(status := Queued, user := if user.Some? then user else row.user,
                             queued := row.queued + 1)];
      out := Enqueued(j, true, true);
    }

    /** Insert a queued job; refused by the index, answer with the job that is in the way. */
    method InsertQueuedJob(ident: Identity, user: Option<nat>) returns (out: Outcome)
      requires Unique(jobs)
      modifies this
      ensures Unique(jobs)
      ensures var free := IndexAllows(old(jobs), ident, None);
        && jobs == (if free then old(jobs) + [NewJob(ident, user)] else old(jobs))
        && out == (if free then Enqueued(|old(jobs)|, false, true) else Raced(old(jobs), ident, IntegrityError))
      ensures out.Enqueued?
    {
      if !IndexAllows(jobs, ident, None) {
        out := AnswerRaced(ident, IntegrityError);
        return;
      }
      jobs := jobs + [Job(ident, Queued, user, 1, 0)];
      out := Enqueued(|jobs| - 1, false, true);
    }

    method Enqueue(ident: Identity, force: bool, user: Option<nat>) returns (out: Outcome)
      requires Unique(jobs)
      modifies this
      ensures (jobs, out) == EnqueueAlone(old(jobs), ident, force, user)
      ensures Unique(jobs)
      ensures out.Enqueued? && out.job < |jobs| && jobs[out.job].ident == ident && Active(jobs[out.job].status)
      ensures out.dispatch <==> jobs[out.job].status.Queued? && jobs != old(jobs)
      ensures |jobs| == |old(jobs)| + if out.reused then 0 else 1
    {
      var existing := FindMatchingJob(ident);
      OneJobStands(jobs, ident, existing);
      if existing.Some? && !force {
        var j := existing.value;
        if Active(jobs[j].status) { return Enqueued(j, true, false); }
        out := ReclaimFailedJob(j, user);
        return;
      }
      if force && existing.Some? && Active(jobs[existing.value].status) {
        var j := existing.value;
        jobs := jobs[j := jobs[j].(status := Cancelled)];
      }
      out := InsertQueuedJob(ident, user);
    }

    /** A worker's run of a job: RUNNING, then COMPLETED or FAILED; the index may refuse RUNNING. */
    method ProcessJob(j: nat, gameFound: bool, succeeds: bool) returns (raised: bool)
      requires Unique(jobs) && j < |jobs|
      modifies this
      ensures Unique(jobs)
      ensures raised <==> gameFound && ActiveBeside(old(jobs), j)
      ensures |jobs| == |old(jobs)|
      ensures !raised ==> jobs[j].status == (if gameFound && succeeds then Completed else Failed)
      ensures jobs == if raised then old(jobs)
                      else if !gameFound then old(jobs)[j := Marked(old(jobs[j]), Failed)]
                      else old(jobs)[j := Marked(Marked(old(jobs[j]), Running), if succeeds then Completed else Failed)]
    {
      assert ActiveBeside(jobs, j) <==> !IndexAllows(jobs, jobs[j].ident, Some(j));
      if !gameFound {
        jobs := jobs[j := Marked(jobs[j], Failed)];
        return false;
      }
      if !IndexAllows(jobs, jobs[j].ident, Some(j)) { return true; }
      jobs := jobs[j := Marked(jobs[j], Running)];
      if succeeds {
        jobs := jobs[j := Marked(jobs[j], Completed)];
      } else {
        jobs := jobs[j := Marked(jobs[j], Failed)];
      }
      raised := false;
    }
  }
}
