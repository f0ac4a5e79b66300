/** The worker entry points: who owns the transaction, what is durable afterwards, and what the ledger row says.

    An operation is any sequence of writes, commits and rollbacks that ends by returning or raising; a commit of
    its own that fails counts as a rollback. */
module TaskLedger {
  import opened Wrappers

  type Write = nat

  datatype Action = Put(write: Write) | Commit | Rollback

  datatype Ending = Return(value: int) | Raise(error: string)

  datatype Operation = Operation(actions: seq<Action>, ending: Ending)

  datatype Status = Running | Completed | Failed

  datatype Row = Row(status: Status, ok: bool, error: Option<string>, progress: nat)

  /** Which of the entry point's own commits fail: of the running row, of the success, of the failure record. */
  datatype Faults = Faults(start: bool, success: bool, failure: bool)

  // ---- What an operation leaves behind ----

  datatype Log = Log(durable: seq<Write>, pending: seq<Write>)

  function Act(log: Log, action: Action): Log {
    match action
    case Put(w) => log.(pending := log.pending + [w])
    case Commit => Log(log.durable + log.pending, [])
    case Rollback => log.(pending := [])
  }

  function ActAll(log: Log, actions: seq<Action>): Log {
    if |actions| == 0 then log else Act(ActAll(log, actions[..|actions| - 1]), actions[|actions| - 1])
  }

  ghost predicate SavedBy(actions: seq<Action>, i: int, c: int) {
    && 0 <= i < c < |actions| && actions[i].Put? && actions[c].Commit?
    && forall k :: i < k < c ==> !actions[k].Rollback?
  }

  /** The independent reading: a write is saved when some commit follows it with no rollback in between ... */
  ghost predicate Saved(actions: seq<Action>, i: int) {
    exists c :: SavedBy(actions, i, c)
  }

  /** ... and outstanding when neither follows it. */
  ghost predicate Outstanding(actions: seq<Action>, i: int) {
    && 0 <= i < |actions| && actions[i].Put?
    && forall k :: i < k < |actions| ==> actions[k].Put?
  }

  ghost function SavedWrites(actions: seq<Action>, n: nat): seq<Write>
    requires n <= |actions|
  {
    if n == 0 then []
    else SavedWrites(actions, n - 1) + if Saved(actions, n - 1) then [actions[n - 1].write] else []
  }

  ghost function OutstandingWrites(actions: seq<Action>, n: nat): seq<Write>
    requires n <= |actions|
  {
    if n == 0 then []
    else OutstandingWrites(actions, n - 1) + if Outstanding(actions, n - 1) then [actions[n - 1].write] else []
  }

  ghost function AllSaved(op: Operation): seq<Write> {
    SavedWrites(op.actions, |op.actions|)
  }

  ghost function AllOutstanding(op: Operation): seq<Write> {
    OutstandingWrites(op.actions, |op.actions|)
  }

  /** Nothing at or before a saved write is outstanding. */
  lemma {:induction false} SavedComesFirst(actions: seq<Action>, i: int, n: nat)
    requires Saved(actions, i) && n <= i + 1
    ensures OutstandingWrites(actions, n) == []
  {
    if n > 0 { SavedComesFirst(actions, i, n - 1); }
  }

  /** One more action neither saves by an older commit nor undoes that. */
  lemma SavedByStays(actions: seq<Action>, last: Action, i: int, c: int)
    requires c < |actions|
    ensures SavedBy(actions + [last], i, c) <==> SavedBy(actions, i, c)
  {
    var more := actions + [last];
    if 0 <= i < c { assert forall k :: i <= k <= c ==> more[k] == actions[k]; }
  }

  lemma SavedStays(actions: seq<Action>, last: Action, i: int)
    requires i < |actions|
    ensures Saved(actions, i) ==> Saved(actions + [last], i)
    ensures !last.Commit? ==> (Saved(actions + [last], i) ==> Saved(actions, i))
  {
    var more := actions + [last];
    if Saved(actions, i) {
      var c :| SavedBy(actions, i, c);
      SavedByStays(actions, last, i, c);
    }
    if !last.Commit? && Saved(more, i) {
      var c :| SavedBy(more, i, c);
      assert c != |actions|;
      SavedByStays(actions, last, i, c);
    }
  }

  lemma {:induction false} OneMorePut(actions: seq<Action>, w: Write, n: nat)
    requires n <= |actions|
    ensures SavedWrites(actions + [Put(w)], n) == SavedWrites(actions, n)
    ensures OutstandingWrites(actions + [Put(w)], n) == OutstandingWrites(actions, n)
  {
    if n > 0 {
      OneMorePut(actions, w, n - 1);
      SavedStays(actions, Put(w), n - 1);
      var more := actions + [Put(w)];
      if Outstanding(more, n - 1) { assert forall k :: n - 1 <= k < |actions| ==> more[k] == actions[k]; }
    }
  }

  lemma {:induction false} OneMoreRollback(actions: seq<Action>, n: nat)
    requires n <= |actions|
    ensures SavedWrites(actions + [Rollback], n) == SavedWrites(actions, n)
    ensures OutstandingWrites(actions + [Rollback], n) == []
  {
    if n > 0 {
      OneMoreRollback(actions, n - 1);
      SavedStays(actions, Rollback, n - 1);
      assert (actions + [Rollback])[|actions|].Rollback?;
    }
  }

  lemma {:induction false} OneMoreCommit(actions: seq<Action>, n: nat)
    requires n <= |actions|
    ensures SavedWrites(actions + [Commit], n) == SavedWrites(actions, n) + OutstandingWrites(actions, n)
    ensures OutstandingWrites(actions + [Commit], n) == []
  {
    if n > 0 {
      OneMoreCommit(actions, n - 1);
      CommitSaves(actions, n - 1);
      if Saved(actions, n - 1) { SavedComesFirst(actions, n - 1, n); }
    }
  }

  /** A commit saves what was outstanding and leaves nothing outstanding. */
  lemma CommitSaves(actions: seq<Action>, i: nat)
    requires i < |actions|
    ensures Saved(actions + [Commit], i) <==> Saved(actions, i) || Outstanding(actions, i)
    ensures !Outstanding(actions + [Commit], i)
  {
    var more := actions + [Commit];
    var last := |actions|;
    assert more[last].Commit?;
    SavedStays(actions, Commit, i);
    if Outstanding(actions, i) { assert SavedBy(more, i, last); }
    if Saved(more, i) && !Outstanding(actions, i) {
      var c :| SavedBy(more, i, c);
      if c == last { c := FirstClosing(actions, i); }
      SavedByStays(actions, Commit, i, c);
    }
  }

  /** A write that no rollback follows and that is not outstanding has its first commit. */
  lemma FirstClosing(actions: seq<Action>, i: nat) returns (c: nat)
    requires i < |actions| && actions[i].Put? && !Outstanding(actions, i)
    requires SavedBy(actions + [Commit], i, |actions|)
    ensures SavedBy(actions, i, c) && c < |actions| && SavedBy(actions + [Commit], i, c)
  {
    c :| i < c < |actions| && !actions[c].Put?;
    assert forall k :: i < k < |actions| ==> !(actions + [Commit])[k].Rollback? && (actions + [Commit])[k] == actions[k];
  }

  /** Nothing follows the last action, so no commit saves it. */
  lemma LastAction(init: seq<Action>, last: Action)
    ensures var actions := init + [last];
      !Saved(actions, |init|) && (Outstanding(actions, |init|) <==> last.Put?)
  {}

  /** Main result: running the actions one by one leaves durable exactly the writes some commit saved, in
      order, and pending exactly those still outstanding. */
  lemma {:induction false} DurableIsSaved(log: Log, actions: seq<Action>)
    requires log.pending == []
    ensures ActAll(log, actions) ==
      Log(log.durable + SavedWrites(actions, |actions|), OutstandingWrites(actions, |actions|))
  {
    hide Saved, Outstanding;
    if |actions| > 0 {
      var n := |actions| - 1;
      var init, last := actions[..n], actions[n];
      DurableIsSaved(log, init);
      assert actions == init + [last];
      LastAction(init, last);
      match last {
        case Put(w) => OneMorePut(init, w, n);
        case Commit => OneMoreCommit(init, n);
        case Rollback => OneMoreRollback(init, n);
      }
    }
  }

  // ---- The entry points ----

  datatype Outcome = Returned(value: int) | Raised(error: string)

  const LOST := "commit failed"

  /** `finish_task`: progress is only set on success. */
  function Finished(row: Row, status: Status, error: Option<string>): Row {
    Row(status, status == Completed, error, if status == Completed then 100 else row.progress)
  }

  /** One database session, with the ledger row the entry point keeps beside the operation's writes. */
  class Session {
    var log: Log
    var row: Option<Row>
    var draft: Option<Row>

    /** Nothing is open. */
    ghost predicate Clean()
      reads this
    {
      log.pending == [] && draft == row
    }

    constructor (durable: seq<Write>)
      ensures Clean() && log.durable == durable && row == None
    {
      log, row, draft := Log(durable, []), None, None;
    }

    method CommitAll(fails: bool) returns (ok: bool)
      modifies this
      ensures ok == !fails
      ensures ok ==> log == Act(old(log), Commit) && row == old(draft) && draft == row
      ensures !ok ==> log == old(log) && row == old(row) && draft == old(draft)
    {
      if fails { return false; }
      log, row := Act(log, Commit), draft;
      ok := true;
    }

    method RollbackAll()
      modifies this
      ensures Clean() && row == old(row) && log == Act(old(log), Rollback)
    {
      log, draft := Act(log, Rollback), row;
    }

    /** The operation's own actions.  The ledger row is not its to write, so its commits leave it alone. */
    method Perform(op: Operation)
      requires Clean()
      modifies this`log
      ensures log == Log(old(log).durable + AllSaved(op), AllOutstanding(op))
    {
      var i := 0;
      while i < |op.actions|
        invariant i <= |op.actions|
        invariant log == ActAll(old(log), op.actions[..i])
      {
        log := Act(log, op.actions[i]);
        i := i + 1;
        assert op.actions[..i][..i - 1] == op.actions[..i - 1];
      }
      assert op.actions[..i] == op.actions;
      DurableIsSaved(old(log), op.actions);
    }

    /** `start_task`, committed before anything else. */
    method Start(fails: bool) returns (ok: bool)
      requires Clean()
      modifies this
      ensures Clean() && ok == !fails && log == old(log)
      ensures row == if ok then Some(Row(Running, false, None, 0)) else old(row)
    {
      draft := Some(Row(Running, false, None, 0));
      ok := CommitAll(fails);
      if !ok { RollbackAll(); }
    }

    /** Record the end of the task; a missing row is left missing. */
    method Finish(status: Status, error: Option<string>, fails: bool) returns (ok: bool)
      requires draft == row
      modifies this
      ensures ok == !fails && draft == row
      ensures row == if ok && old(row).Some? then Some(Finished(old(row).value, status, error)) else old(row)
      ensures log == if ok then Act(old(log), Commit) else old(log)
    {
      if row.Some? { draft := Some(Finished(row.value, status, error)); }
      ok := CommitAll(fails);
      if !ok { draft := row; }
    }

    /** `run_async_task`.  The row ends completed with every outstanding write saved, or failed with exactly the
        effects up to the operation's last commit; it is left running only when the failure record is lost too. */
    method RunAsyncTask(op: Operation, faults: Faults) returns (outcome: Outcome)
      requires Clean()
      modifies this
      ensures Clean()
      ensures faults.start ==> outcome == Raised(LOST) && row == old(row) && log == old(log)
      ensures outcome.Returned? <==> !faults.start && op.ending.Return? && !faults.success
      ensures outcome.Returned? ==>
        && outcome.value == op.ending.value && row == Some(Row(Completed, true, None, 100))
        && log.durable == old(log).durable + AllSaved(op) + AllOutstanding(op)
      ensures outcome.Raised? && !faults.start ==>
        var error := if op.ending.Raise? then op.ending.error else LOST;
        && log.durable == old(log).durable + AllSaved(op)
        && outcome.error == (if faults.failure then LOST else error)
        && row == Some(if faults.failure then Row(Running, false, None, 0) else Row(Failed, false, Some(error), 0))
    {
      var started := Start(faults.start);
      if !started { return Raised(LOST); }
      Perform(op);
      var error := LOST;
      if op.ending.Return? {
        var saved := Finish(Completed, None, faults.success);
        if saved { return Returned(op.ending.value); }
      } else {
        error := op.ending.error;
      }
      RollbackAll();
      var recorded := Finish(Failed, Some(error), faults.failure);
      outcome := Raised(if recorded then error else LOST);
    }

    /** `run_detached_async_task`: the operation has sessions of its own, so only what it committed itself
        counts, however it ends; a lost success record leaves the row running. */
    method RunDetachedAsyncTask(op: Operation, faults: Faults) returns (outcome: Outcome)
      requires Clean()
      modifies this
      ensures Clean()
      ensures faults.start ==> outcome == Raised(LOST) && row == old(row) && log == old(log)
      ensures !faults.start ==> log.durable == old(log).durable + AllSaved(op)
      ensures outcome.Returned? <==> !faults.start && op.ending.Return? && !faults.success
      ensures outcome.Returned? ==> outcome.value == op.ending.value && row == Some(Row(Completed, true, None, 100))
      ensures outcome.Raised? && !faults.start ==>
        var recorded := op.ending.Raise? && !faults.failure;
        && outcome.error == (if recorded then op.ending.error else LOST)
        && row == Some(if recorded then Row(Failed, false, Some(op.ending.error), 0) else Row(Running, false, None, 0))
    {
      var started := Start(faults.start);
      if !started { return Raised(LOST); }
      Perform(op);
      log := Act(log, Rollback);
      var recorded;
      if op.ending.Raise? {
        recorded := Finish(Failed, Some(op.ending.error), faults.failure);
        outcome := Raised(if recorded then op.ending.error else LOST);
      } else {
        recorded := Finish(Completed, None, faults.success);
        outcome := if recorded then Returned(op.ending.value) else Raised(LOST);
      }
    }

    /** `run_async_task_simple`: all or nothing after the operation's last commit, and no ledger row. */
    method RunAsyncTaskSimple(op: Operation, commitFails: bool) returns (outcome: Outcome)
      requires Clean()
      modifies this
      ensures Clean() && row == old(row)
      ensures outcome.Returned? <==> op.ending.Return? && !commitFails
      ensures log.durable == old(log).durable + AllSaved(op) + if outcome.Returned? then AllOutstanding(op) else []
      ensures outcome == if op.ending.Raise? then Raised(op.ending.error)
                         else if commitFails then Raised(LOST) else Returned(op.ending.value)
    {
      Perform(op);
      if op.ending.Return? {
        var saved := CommitAll(commitFails);
        if saved { return Returned(op.ending.value); }
        outcome := Raised(LOST);
      } else {
        outcome := Raised(op.ending.error);
      }
      RollbackAll();
    }
  }

  /** The same operation, returning after one committed write, with the commit of the success record lost: the
      detached task leaves its row running, the plain one records a failure. */
  method LostSuccessRecord() returns (detached: Option<Row>, plain: Option<Row>, durable: seq<Write>)
    ensures detached == Some(Row(Running, false, None, 0)) && durable == [1]
    ensures plain == Some(Row(Failed, false, Some(LOST), 0))
  {
    var op := Operation([Put(1), Commit], Return(0));
    var faults := Faults(false, true, false);
    OneCommittedWrite();
    var session := new Session([]);
    var outcome := session.RunDetachedAsyncTask(op, faults);
    detached, durable := session.row, session.log.durable;
    session := new Session([]);
    outcome := session.RunAsyncTask(op, faults);
    plain := session.row;
  }

  lemma OneCommittedWrite()
    ensures AllSaved(Operation([Put(1), Commit], Return(0))) == [1]
  {
    var actions := [Put(1), Commit];
    assert SavedBy(actions, 0, 1);
    assert !Saved(actions, 1);
    assert SavedWrites(actions, 2) == SavedWrites(actions, 1) == SavedWrites(actions, 0) + [1];
  }
}
