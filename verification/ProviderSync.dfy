/** `provider_sync`: count the games of a batch, enqueue some for analysis, and move the high-water mark only when
    no game failed.  Times are in seconds. */
module ProviderSync {
  import opened Wrappers

  const DAY := 86_400

  datatype Window = Window(start: int, end: int)

  /** `compute_incremental_window`, the dates only. */
  function ComputeWindow(mark: Option<int>, lookback: int, bootstrap: Option<int>, now: int): (w: Window)
    ensures w.end == now && w.start <= now
    ensures mark.Some? && mark.value <= now ==> w.start <= mark.value
    ensures mark.Some? ==>
      w.start == (if lookback <= 0 && mark.value <= now then mark.value
                  else if lookback > 0 && mark.value - lookback <= now then mark.value - lookback else now)
    ensures mark.None? ==>
      var least := if lookback > 0 then lookback else 0;
      now - w.start ==
        match bootstrap
        case None => if least > 604_800 then least else 604_800
        case Some(asked) =>
          if asked <= least then least
          else if asked <= 31_536_000 then asked
          else if least > 31_536_000 then least else 31_536_000
  {
    var back := Max(0, lookback);
    var start :=
      if mark.Some? then mark.value - back
      else now - Max(back, Min(if bootstrap.Some? then bootstrap.value else Max(back, 7 * DAY), 365 * DAY));
    Window(if start > now then now else start, now)
  }

  /** What the provider lists: an id and a date, when it has one. */
  datatype Summary = Summary(id: nat, date: Option<int>)

  /** What becomes of one game: fetched, normalized and upserted, or an error on the way. */
  datatype Answer = Created | Linked | Duplicate | Failed

  /** One run: its clock, its parameters, and what the provider and the catalog answer for the i-th game of the
      batch; an id may be listed twice. */
  datatype Sync = Sync(
    now: int, lookback: int, bootstrap: Option<int>, summaries: seq<Summary>, maxGames: nat, answer: nat -> Answer)

  /** The checkpoint, and the games that reached the catalog. */
  datatype Feed = Feed(mark: Option<int>, persisted: set<nat>)

  /** `game_date_in_window` with unknown dates kept. */
  predicate DateIn(date: Option<int>, w: Window) {
    date.Some? ==> w.start <= date.value <= w.end + DAY
  }

  function InWindow(summaries: seq<Summary>, w: Window): (kept: seq<Summary>)
    ensures forall s :: s in kept <==> s in summaries && DateIn(s.date, w)
  {
    if |summaries| == 0 then []
    else
      var rest := InWindow(summaries[1..], w);
      if DateIn(summaries[0].date, w) then [summaries[0]] + rest else rest
  }

  function WindowOf(feed: Feed, sync: Sync): Window {
    ComputeWindow(feed.mark, sync.lookback, sync.bootstrap, sync.now)
  }

  function Listed(feed: Feed, sync: Sync): seq<Summary> {
    InWindow(sync.summaries, WindowOf(feed, sync))
  }

  function Batch(feed: Feed, sync: Sync): seq<Summary> {
    var listed := Listed(feed, sync);
    if |listed| <= sync.maxGames then listed else listed[..sync.maxGames]
  }

  /** A game of the batch and what became of it. */
  datatype Try = Try(game: nat, answer: Answer)

  function Tries(batch: seq<Summary>, answer: nat -> Answer): (tries: seq<Try>)
    ensures |tries| == |batch| && forall i :: 0 <= i < |batch| ==> tries[i] == Try(batch[i].id, answer(i))
  {
    seq(|batch|, i requires 0 <= i < |batch| => Try(batch[i].id, answer(i)))
  }

  function Tried(feed: Feed, sync: Sync): seq<Try> {
    Tries(Batch(feed, sync), sync.answer)
  }

  function Count(tries: seq<Try>, a: Answer): nat {
    if |tries| == 0 then 0 else Count(tries[..|tries| - 1], a) + if tries[|tries| - 1].answer == a then 1 else 0
  }

  function Saved(tries: seq<Try>): set<nat> {
    set t | t in tries && t.answer != Failed :: t.game
  }

  predicate Clean(feed: Feed, sync: Sync) {
    forall t :: t in Tried(feed, sync) ==> t.answer != Failed
  }

  /** The feed after a run: the mark moves to the end of the window exactly when nothing failed. */
  function AfterSync(feed: Feed, sync: Sync): Feed {
    Feed(if Clean(feed, sync) then Some(sync.now) else feed.mark, feed.persisted + Saved(Tried(feed, sync)))
  }

  function AfterAll(feed: Feed, syncs: seq<Sync>): Feed {
    if |syncs| == 0 then feed else AfterSync(AfterAll(feed, syncs[..|syncs| - 1]), syncs[|syncs| - 1])
  }

  // ---- Runs of syncs ----

  /** Run `j` was error-free. */
  predicate CleanAt(feed: Feed, syncs: seq<Sync>, j: int) {
    0 <= j < |syncs| && Clean(AfterAll(feed, syncs[..j]), syncs[j])
  }

  function WindowAt(feed: Feed, syncs: seq<Sync>, j: nat): Window
    requires j < |syncs|
  {
    WindowOf(AfterAll(feed, syncs[..j]), syncs[j])
  }

  /** The runs before the last one do not see it. */
  lemma BeforeLast(feed: Feed, syncs: seq<Sync>, j: nat)
    requires j < |syncs| - 1
    ensures var init := syncs[..|syncs| - 1];
      && (CleanAt(feed, init, j) <==> CleanAt(feed, syncs, j))
      && WindowAt(feed, init, j) == WindowAt(feed, syncs, j) && init[j] == syncs[j]
  {
    hide Clean, AfterAll, WindowOf;
    assert syncs[..|syncs| - 1][..j] == syncs[..j];
  }

  lemma LastRun(feed: Feed, syncs: seq<Sync>)
    requires |syncs| > 0
    ensures var n := |syncs| - 1;
      AfterAll(feed, syncs).mark == if CleanAt(feed, syncs, n) then Some(syncs[n].now) else AfterAll(feed, syncs[..n]).mark
  {
    hide Clean, Batch, Tried;
  }

  /** The mark is the clock of the last error-free run ... */
  lemma {:induction false} MarkIsLastCleanRun(feed: Feed, syncs: seq<Sync>, j: nat)
    requires CleanAt(feed, syncs, j) && forall k :: j < k < |syncs| ==> !CleanAt(feed, syncs, k)
    ensures AfterAll(feed, syncs).mark == Some(syncs[j].now)
  {
    hide CleanAt, AfterAll, WindowAt;
    assert j < |syncs| by { LastIndex(feed, syncs, j); }
    LastRun(feed, syncs);
    var init := syncs[..|syncs| - 1];
    if j < |init| {
      forall k | j <= k < |init| ensures CleanAt(feed, init, k) <==> CleanAt(feed, syncs, k) { BeforeLast(feed, syncs, k); }
      MarkIsLastCleanRun(feed, init, j);
    }
  }

  lemma LastIndex(feed: Feed, syncs: seq<Sync>, j: int)
    requires CleanAt(feed, syncs, j)
    ensures 0 <= j < |syncs|
  {}

  /** ... and stays where it was when every run had an error. */
  lemma {:induction false} FailedRunsKeepMark(feed: Feed, syncs: seq<Sync>)
    requires forall k :: 0 <= k < |syncs| ==> !CleanAt(feed, syncs, k)
    ensures AfterAll(feed, syncs).mark == feed.mark
  {
    if |syncs| > 0 {
      hide CleanAt, WindowAt, AfterAll;
      LastRun(feed, syncs);
      var init := syncs[..|syncs| - 1];
      forall k | 0 <= k < |init| ensures !CleanAt(feed, init, k) { BeforeLast(feed, syncs, k); }
      FailedRunsKeepMark(feed, init);
    }
  }

  /** Some error-free run looked at this date. */
  ghost predicate Covered(feed: Feed, syncs: seq<Sync>, date: int) {
    exists j :: 0 <= j < |syncs| && CleanAt(feed, syncs, j) && InsideOf(date, WindowAt(feed, syncs, j))
  }

  /** Between the ends of the window, a day beyond its end included. */
  predicate InsideOf(date: int, w: Window) {
    w.start <= date <= w.end + 86_400
  }

  /** The clock does not go backwards. */
  ghost predicate Clocked(syncs: seq<Sync>) {
    forall i, j :: 0 <= i < j < |syncs| ==> syncs[i].now <= syncs[j].now
  }

  lemma CoveredStays(feed: Feed, syncs: seq<Sync>, date: int)
    requires |syncs| > 0 && Covered(feed, syncs[..|syncs| - 1], date)
    ensures Covered(feed, syncs, date)
  {
    var init := syncs[..|syncs| - 1];
    hide CleanAt, WindowAt, InsideOf, DateIn;
    var j: nat := CoveringRun(feed, init, date);
    BeforeLast(feed, syncs, j);
  }

  lemma {:induction false} CleanLeavesMark(feed: Feed, syncs: seq<Sync>, j: nat)
    requires CleanAt(feed, syncs, j)
    ensures AfterAll(feed, syncs).mark.Some?
  {
    LastIndex(feed, syncs, j);
    hide CleanAt, AfterAll, WindowAt;
    LastRun(feed, syncs);
    if j < |syncs| - 1 {
      BeforeLast(feed, syncs, j);
      CleanLeavesMark(feed, syncs[..|syncs| - 1], j);
    }
  }

  /** The mark after runs of which the j-th was error-free. */
  function MarkAfter(feed: Feed, syncs: seq<Sync>, j: nat): int
    requires CleanAt(feed, syncs, j)
  {
    CleanLeavesMark(feed, syncs, j);
    AfterAll(feed, syncs).mark.value
  }

  /** From the first error-free run on, the mark is no later than the clock. */
  lemma {:induction false} MarkIsPast(feed: Feed, syncs: seq<Sync>, j: nat, now: int)
    requires CleanAt(feed, syncs, j) && forall s :: s in syncs ==> s.now <= now
    ensures MarkAfter(feed, syncs, j) <= now
  {
    LastIndex(feed, syncs, j);
    hide CleanAt, AfterAll, WindowAt;
    LastRun(feed, syncs);
    var n := |syncs| - 1;
    assert syncs[n] in syncs;
    if !CleanAt(feed, syncs, n) {
      BeforeLast(feed, syncs, j);
      MarkIsPast(feed, syncs[..n], j, now);
    }
  }

  /** Main result.  A feed has no gaps: from the start of any error-free window, the first one in particular, up
      to the mark, every date has been in the window of an error-free run, whatever failed in between. */
  lemma {:induction false} NoGaps(feed: Feed, syncs: seq<Sync>, j: nat, date: int)
    requires Clocked(syncs) && CleanAt(feed, syncs, j)
    requires WindowAt(feed, syncs, j).start <= date <= MarkAfter(feed, syncs, j) + DAY
    ensures Covered(feed, syncs, date)
  {
    hide CleanAt, AfterAll, WindowAt, WindowOf, ComputeWindow, Covered;
    var n := |syncs| - 1;
    LastIndex(feed, syncs, j);
    if CleanAt(feed, syncs, n) && DateIn(Some(date), WindowAt(feed, syncs, n)) {
      CoveredAt(feed, syncs, n, date);
    } else {
      var init := syncs[..n];
      LastRun(feed, syncs);
      if CleanAt(feed, syncs, n) { WindowEndsNow(feed, syncs); }
      assert j != n;
      BeforeLast(feed, syncs, j);
      if CleanAt(feed, syncs, n) { WindowReachesBack(feed, syncs, j); }
      NoGaps(feed, init, j, date);
      CoveredStays(feed, syncs, date);
    }
  }

  lemma WindowEndsNow(feed: Feed, syncs: seq<Sync>)
    requires |syncs| > 0
    ensures WindowAt(feed, syncs, |syncs| - 1).end == syncs[|syncs| - 1].now
  {
    hide AfterAll;
  }

  lemma CoveredAt(feed: Feed, syncs: seq<Sync>, j: nat, date: int)
    requires CleanAt(feed, syncs, j) && DateIn(Some(date), WindowAt(feed, syncs, j))
    ensures Covered(feed, syncs, date)
  {}

  /** A window starts at or before the mark it was computed from. */
  lemma WindowReachesBack(feed: Feed, syncs: seq<Sync>, j: nat)
    requires Clocked(syncs) && |syncs| > 0 && CleanAt(feed, syncs[..|syncs| - 1], j)
    ensures WindowAt(feed, syncs, |syncs| - 1).start <= MarkAfter(feed, syncs[..|syncs| - 1], j)
  {
    hide AfterAll, CleanAt;
    CleanLeavesMark(feed, syncs[..|syncs| - 1], j);
    MarkIsPast(feed, syncs[..|syncs| - 1], j, syncs[|syncs| - 1].now);
  }

  lemma {:induction false} PersistedStays(feed: Feed, syncs: seq<Sync>, j: nat)
    requires j <= |syncs|
    ensures AfterAll(feed, syncs[..j]).persisted <= AfterAll(feed, syncs).persisted
    decreases |syncs|
  {
    hide Clean, Batch, Saved, Tried;
    if j < |syncs| {
      var n := |syncs| - 1;
      assert syncs[..n][..j] == syncs[..j];
      PersistedStays(feed, syncs[..n], j);
    } else {
      assert syncs[..j] == syncs;
    }
  }

  /** Some run listed the game and had room for its whole window. */
  predicate RoomFor(feed: Feed, syncs: seq<Sync>, j: nat, game: nat, date: int)
    requires j < |syncs|
  {
    && Summary(game, Some(date)) in syncs[j].summaries
    && |Listed(AfterAll(feed, syncs[..j]), syncs[j])| <= syncs[j].maxGames
  }

  /** A game the provider lists in every error-free run, in windows that fit the batch, is in the catalog once
      the mark has passed its date, however many runs failed. */
  lemma ListedGamesArePersisted(feed: Feed, syncs: seq<Sync>, j: nat, game: nat, date: int)
    requires Clocked(syncs) && CleanAt(feed, syncs, j)
    requires WindowAt(feed, syncs, j).start <= date <= MarkAfter(feed, syncs, j) + DAY
    requires forall k :: 0 <= k < |syncs| && CleanAt(feed, syncs, k) ==> RoomFor(feed, syncs, k, game, date)
    ensures game in AfterAll(feed, syncs).persisted
  {
    hide AfterAll, CleanAt, WindowAt, ComputeWindow, InWindow, Listed, Covered, RoomFor;
    NoGaps(feed, syncs, j, date);
    var k := CoveringRun(feed, syncs, date);
    PersistedBy(feed, syncs, k, game, date);
    PersistedStays(feed, syncs, k + 1);
  }

  lemma CoveringRun(feed: Feed, syncs: seq<Sync>, date: int) returns (j: nat)
    requires Covered(feed, syncs, date)
    ensures j < |syncs| && CleanAt(feed, syncs, j)
    ensures InsideOf(date, WindowAt(feed, syncs, j)) && DateIn(Some(date), WindowAt(feed, syncs, j))
  {
    hide WindowAt, CleanAt;
    var k: int :| CleanAt(feed, syncs, k) && 0 <= k < |syncs| && InsideOf(date, WindowAt(feed, syncs, k));
    j := k;
  }

  lemma PersistedBy(feed: Feed, syncs: seq<Sync>, j: nat, game: nat, date: int)
    requires CleanAt(feed, syncs, j) && DateIn(Some(date), WindowAt(feed, syncs, j))
    requires RoomFor(feed, syncs, j, game, date)
    ensures game in AfterAll(feed, syncs[..j + 1]).persisted
  {
    hide ComputeWindow, InWindow, Batch, Clean, Tried;
    CleanRunPersists(AfterAll(feed, syncs[..j]), syncs[j], game, date);
    assert syncs[..j + 1][..j] == syncs[..j];
  }

  lemma CleanRunPersists(feed: Feed, sync: Sync, game: nat, date: int)
    requires Clean(feed, sync) && Summary(game, Some(date)) in sync.summaries
    requires DateIn(Some(date), WindowOf(feed, sync)) && |Listed(feed, sync)| <= sync.maxGames
    ensures game in AfterSync(feed, sync).persisted
  {
    hide ComputeWindow;
    var batch := Batch(feed, sync);
    assert Summary(game, Some(date)) in batch;
    var i :| 0 <= i < |batch| && batch[i] == Summary(game, Some(date));
    assert Tried(feed, sync)[i] in Tried(feed, sync);
  }

  lemma BatchIsInWindow(feed: Feed, sync: Sync, i: nat)
    requires i < |Batch(feed, sync)|
    ensures var s := Batch(feed, sync)[i];
      s in sync.summaries && (s.date.Some? ==> InsideOf(s.date.value, WindowOf(feed, sync)))
  {
    hide ComputeWindow, WindowOf;
    assert Batch(feed, sync)[i] in Listed(feed, sync);
  }

  /** What a run adds to the catalog: exactly the games of its batch that did not fail, and the batch holds only
      games without a date or with one inside the window. */
  lemma PersistedExactly(feed: Feed, sync: Sync, game: nat)
    ensures game in AfterSync(feed, sync).persisted <==>
      game in feed.persisted
      || exists i :: 0 <= i < |Batch(feed, sync)| && Batch(feed, sync)[i].id == game && sync.answer(i) != Failed
    ensures forall i :: 0 <= i < |Batch(feed, sync)| ==>
      var s := Batch(feed, sync)[i];
      s in sync.summaries && (s.date.Some? ==> InsideOf(s.date.value, WindowOf(feed, sync)))
  {
    hide Batch, WindowOf;
    var batch, tries := Batch(feed, sync), Tried(feed, sync);
    forall i | 0 <= i < |batch| ensures tries[i] in tries {}
    forall i | 0 <= i < |batch|
      ensures batch[i] in sync.summaries && (batch[i].date.Some? ==> InsideOf(batch[i].date.value, WindowOf(feed, sync)))
    {
      BatchIsInWindow(feed, sync, i);
    }
  }

  // ---- The batch limit ----

  predicate DistinctIds(summaries: seq<Summary>) {
    forall i, j :: 0 <= i < j < |summaries| ==> summaries[i].id != summaries[j].id
  }

  /** The mark moves past games the batch had no room for: an error-free run persists the whole window exactly
      when the window fits the batch. */
  lemma CleanRunPersistsWindow(mark: Option<int>, sync: Sync)
    requires var feed := Feed(mark, {}); Clean(feed, sync) && DistinctIds(Listed(feed, sync))
    ensures var feed := Feed(mark, {});
      (forall s :: s in Listed(feed, sync) ==> s.id in AfterSync(feed, sync).persisted)
      <==> |Listed(feed, sync)| <= sync.maxGames
  {
    var feed := Feed(mark, {});
    var listed := Listed(feed, sync);
    if |listed| > sync.maxGames {
      var s := listed[sync.maxGames];
      assert s in listed;
      forall t | t in Tried(feed, sync) ensures t.game != s.id {
        var i :| 0 <= i < sync.maxGames && Tried(feed, sync)[i] == t;
        assert listed[i].id != s.id;
      }
    } else {
      forall s | s in listed ensures s.id in AfterSync(feed, sync).persisted {
        var i :| 0 <= i < |listed| && listed[i] == s;
        assert Tried(feed, sync)[i] in Tried(feed, sync);
      }
    }
  }

  /** Two undated games and room for one: nothing fails, the mark moves on, and the second game is not stored. */
  lemma BatchLosesAGame() returns (feed: Feed, sync: Sync, lost: Summary)
    ensures Clean(feed, sync) && AfterSync(feed, sync).mark == Some(sync.now) != feed.mark
    ensures lost in Listed(feed, sync) && lost.id !in AfterSync(feed, sync).persisted
  {
    feed := Feed(Some(0), {});
    lost := Summary(2, None);
    sync := Sync(100, 0, None, [Summary(1, None), lost], 1, i => Created);
    assert InWindow([lost], WindowOf(feed, sync)) == [lost];
    assert Listed(feed, sync) == [Summary(1, None), lost];
    assert Batch(feed, sync) == [Summary(1, None)];
    assert Tried(feed, sync)[0] in Tried(feed, sync);
  }

  // ---- Analysis ----

  /** What `enqueue` says to a candidate: not eligible, a new job, a reused one (reclaimed ones dispatch), or an
      exception. */
  datatype Verdict = Ineligible | NewJob | Reused(dispatch: bool) | Refused

  datatype Policy = Policy(autoAnalyze: bool, newGamesOnly: bool, cap: nat)

  /** The games to consider: the created ones and, unless only new games count, the linked ones. */
  function Candidates(tries: seq<Try>, newOnly: bool): seq<nat> {
    if |tries| == 0 then []
    else
      var before := Candidates(tries[..|tries| - 1], newOnly);
      var t := tries[|tries| - 1];
      if t.answer == Created || (t.answer == Linked && !newOnly) then before + [t.game] else before
  }

  function NewJobs(verdicts: seq<Verdict>): nat {
    if |verdicts| == 0 then 0
    else NewJobs(verdicts[..|verdicts| - 1]) + if verdicts[|verdicts| - 1].NewJob? then 1 else 0
  }

  /** The candidate is asked about: the cap was not yet reached by the new jobs before it. */
  predicate Asked(verdicts: seq<Verdict>, cap: nat, i: nat)
    requires i <= |verdicts|
  {
    NewJobs(verdicts[..i]) < cap
  }

  /** The reused jobs among the candidates asked about, and the reclaimed ones among those. */
  function Reuses(verdicts: seq<Verdict>, cap: nat, reclaimedOnly: bool): nat {
    if |verdicts| == 0 then 0
    else
      var n := |verdicts| - 1;
      var counts := verdicts[n].Reused? && (reclaimedOnly ==> verdicts[n].dispatch);
      Reuses(verdicts[..n], cap, reclaimedOnly) + if counts && Asked(verdicts, cap, n) then 1 else 0
  }

  /** What the loop dispatches: the new jobs up to the cap, and beyond them every reclaimed one it met. */
  function Dispatches(verdicts: seq<Verdict>, cap: nat): nat {
    Min(cap, NewJobs(verdicts)) + Reuses(verdicts, cap, true)
  }

  lemma {:induction false} CandidatesExactly(tries: seq<Try>, newOnly: bool, game: nat)
    ensures game in Candidates(tries, newOnly) <==>
      exists t :: t in tries && t.game == game && (t.answer == Created || (t.answer == Linked && !newOnly))
  {
    if |tries| > 0 {
      var n := |tries| - 1;
      CandidatesExactly(tries[..n], newOnly, game);
      assert tries == tries[..n] + [tries[n]];
    }
  }

  /** The new jobs are as many as the verdicts that say so ... */
  lemma {:induction false} NewJobsAreCounted(verdicts: seq<Verdict>)
    ensures NewJobs(verdicts) == multiset(verdicts)[NewJob]
  {
    if |verdicts| > 0 {
      var n := |verdicts| - 1;
      NewJobsAreCounted(verdicts[..n]);
      assert verdicts == verdicts[..n] + [verdicts[n]];
    }
  }

  /** A reused job counts: any, or a reclaimed one. */
  predicate IsReuse(v: Verdict, reclaimedOnly: bool) {
    v == Reused(true) || (v == Reused(false) && !reclaimedOnly)
  }

  /** The i-th verdict is a reuse met before as many new jobs as the cap. */
  predicate MetAt(verdicts: seq<Verdict>, cap: nat, reclaimedOnly: bool, i: nat)
    requires i < |verdicts|
  {
    IsReuse(verdicts[i], reclaimedOnly) && multiset(verdicts[..i])[NewJob] < cap
  }

  function MetBeforeCap(verdicts: seq<Verdict>, cap: nat, reclaimedOnly: bool): set<nat> {
    set i | 0 <= i < |verdicts| && MetAt(verdicts, cap, reclaimedOnly, i)
  }

  lemma MetBefore(verdicts: seq<Verdict>, cap: nat, reclaimedOnly: bool, n: nat, i: nat)
    requires i < n <= |verdicts|
    ensures MetAt(verdicts[..n], cap, reclaimedOnly, i) == MetAt(verdicts, cap, reclaimedOnly, i)
  {
    assert verdicts[..n][..i] == verdicts[..i];
  }

  lemma OneMoreMet(verdicts: seq<Verdict>, cap: nat, reclaimedOnly: bool)
    requires |verdicts| > 0
    ensures var n := |verdicts| - 1;
      |MetBeforeCap(verdicts, cap, reclaimedOnly)| ==
        |MetBeforeCap(verdicts[..n], cap, reclaimedOnly)| + if MetAt(verdicts, cap, reclaimedOnly, n) then 1 else 0
  {
    hide MetAt;
    var n := |verdicts| - 1;
    var met := MetBeforeCap(verdicts[..n], cap, reclaimedOnly);
    forall i | 0 <= i < n ensures MetAt(verdicts[..n], cap, reclaimedOnly, i) == MetAt(verdicts, cap, reclaimedOnly, i) {
      MetBefore(verdicts, cap, reclaimedOnly, n, i);
    }
    assert MetBeforeCap(verdicts, cap, reclaimedOnly) ==
      if MetAt(verdicts, cap, reclaimedOnly, n) then met + {n} else met;
  }

  /** ... and the reused ones as many as those met before as many new jobs as the cap. */
  lemma {:induction false} ReusesAreCounted(verdicts: seq<Verdict>, cap: nat, reclaimedOnly: bool)
    ensures Reuses(verdicts, cap, reclaimedOnly) == |MetBeforeCap(verdicts, cap, reclaimedOnly)|
  {
    if |verdicts| > 0 {
      var n := |verdicts| - 1;
      OneMoreMet(verdicts, cap, reclaimedOnly);
      NewJobsAreCounted(verdicts[..n]);
      hide MetBeforeCap, NewJobs;
      ReusesAreCounted(verdicts[..n], cap, reclaimedOnly);
    }
  }

  datatype Analysis = Analysis(requested: nat, reused: nat, skipped: nat, dispatched: nat)

  /** The analysis loop, exactly: as many new jobs as the candidates allow up to the cap, every candidate counted
      once, and `Dispatches` dispatches. */
  method Analyze(candidates: seq<nat>, verdicts: seq<Verdict>, cap: nat) returns (a: Analysis)
    requires |verdicts| == |candidates|
    ensures a.requested == Min(cap, NewJobs(verdicts)) && a.reused == Reuses(verdicts, cap, false)
    ensures a.requested + a.reused + a.skipped == |candidates|
    ensures a.dispatched == Dispatches(verdicts, cap)
  {
    a := Analysis(0, 0, 0, 0);
    for i := 0 to |candidates|
      invariant a.requested == Min(cap, NewJobs(verdicts[..i])) && a.reused == Reuses(verdicts[..i], cap, false)
      invariant a.requested + a.reused + a.skipped == i
      invariant a.dispatched == Dispatches(verdicts[..i], cap)
    {
      assert verdicts[..i + 1][..i] == verdicts[..i];
      if a.requested >= cap {
        a := a.(skipped := a.skipped + 1);
      } else {
        match verdicts[i]
        case NewJob => a := a.(requested := a.requested + 1, dispatched := a.dispatched + 1);
        case Reused(dispatch) => a := a.(reused := a.reused + 1, dispatched := a.dispatched + if dispatch then 1 else 0);
        case _ => a := a.(skipped := a.skipped + 1);
      }
    }
    assert verdicts[..|candidates|] == verdicts;
  }

  /** Every reclaimed job comes after the new jobs have reached the cap. */
  predicate ReclaimedAfterCap(verdicts: seq<Verdict>, cap: nat) {
    forall i :: 0 <= i < |verdicts| && verdicts[i] == Reused(true) ==> !Asked(verdicts, cap, i)
  }

  /** One more verdict adds its own demand, and no other. */
  lemma OneMoreVerdict(verdicts: seq<Verdict>, cap: nat)
    requires |verdicts| > 0
    ensures var n := |verdicts| - 1;
      ReclaimedAfterCap(verdicts, cap) <==>
        ReclaimedAfterCap(verdicts[..n], cap) && (verdicts[n] == Reused(true) ==> !Asked(verdicts, cap, n))
  {
    hide NewJobs;
    var n := |verdicts| - 1;
    var init := verdicts[..n];
    forall i | 0 <= i < n ensures init[i] == verdicts[i] && Asked(init, cap, i) == Asked(verdicts, cap, i) {
      assert init[..i] == verdicts[..i];
    }
  }

  /** Only new jobs are dispatched exactly when the cap was reached before every reclaimed job. */
  lemma {:induction false} DispatchesAreNewJobs(verdicts: seq<Verdict>, cap: nat)
    ensures Dispatches(verdicts, cap) == Min(cap, NewJobs(verdicts)) <==> ReclaimedAfterCap(verdicts, cap)
  {
    hide ReclaimedAfterCap, Asked, NewJobs;
    if |verdicts| > 0 {
      OneMoreVerdict(verdicts, cap);
      DispatchesAreNewJobs(verdicts[..|verdicts| - 1], cap);
    } else {
      assert ReclaimedAfterCap(verdicts, cap) by { NoVerdicts(cap); }
    }
  }

  lemma NoVerdicts(cap: nat)
    ensures ReclaimedAfterCap([], cap)
  {}

  /** The cap bounds the dispatches exactly when the reclaimed jobs met fit beside the new ones. */
  lemma CapBoundsDispatches(verdicts: seq<Verdict>, cap: nat)
    ensures Dispatches(verdicts, cap) <= cap <==>
      Reuses(verdicts, cap, true) == 0 || NewJobs(verdicts) + Reuses(verdicts, cap, true) <= cap
  {}

  /** A reclaimed job and then a new one, under a cap of one: two dispatches. */
  lemma ReclaimPassesTheCap()
    ensures Dispatches([Reused(true), NewJob], 1) == 2 > 1
  {
    var verdicts := [Reused(true), NewJob];
    assert verdicts[..1] == [Reused(true)] && verdicts[..0] == [];
    assert NewJobs([Reused(true)]) == 0 && Reuses([Reused(true)], 1, true) == 1;
  }

  // ---- The job ----

  datatype Report = Report(inserted: nat, linked: nat, dupes: nat, errors: nat, analysis: Analysis, advanced: bool)

  /** `touch`. */
  function Touched(progress: real): (r: real)
    ensures 0.0 <= r <= 0.99
    ensures 0.0 <= progress <= 0.99 ==> r == progress
  {
    if progress < 0.0 then 0.0 else if progress > 0.99 then 0.99 else progress
  }

  lemma {:induction false} CountsAddUp(tries: seq<Try>)
    ensures Count(tries, Created) + Count(tries, Linked) + Count(tries, Duplicate) + Count(tries, Failed) == |tries|
  {
    if |tries| > 0 { CountsAddUp(tries[..|tries| - 1]); }
  }

  function Answers(tries: seq<Try>): (answers: seq<Answer>)
    ensures |answers| == |tries|
  {
    seq(|tries|, i requires 0 <= i < |tries| => tries[i].answer)
  }

  /** A counter is the number of games of the batch with that answer. */
  lemma {:induction false} CountIsNumber(tries: seq<Try>, a: Answer)
    ensures Count(tries, a) == multiset(Answers(tries))[a]
  {
    if |tries| > 0 {
      var n := |tries| - 1;
      CountIsNumber(tries[..n], a);
      assert Answers(tries) == Answers(tries[..n]) + [tries[n].answer];
    }
  }

  lemma CleanIsZeroErrors(feed: Feed, sync: Sync)
    ensures Clean(feed, sync) <==> Count(Tried(feed, sync), Failed) == 0
  {
    NoneFailed(Tried(feed, sync));
  }

  lemma {:induction false} NoneFailed(tries: seq<Try>)
    ensures Count(tries, Failed) == 0 <==> forall t :: t in tries ==> t.answer != Failed
  {
    if |tries| > 0 {
      var n := |tries| - 1;
      NoneFailed(tries[..n]);
      assert tries == tries[..n] + [tries[n]];
    }
  }

  /** One feed's checkpoint and catalog, and the job that is running. */
  class Job {
    var feed: Feed
    var progress: real
    var failures: Option<nat>

    constructor (feed: Feed)
      ensures this.feed == feed && progress == 0.0 && failures == None
    {
      this.feed, progress, failures := feed, 0.0, None;
    }

    /** Main result: the four counters partition the batch, and the checkpoint moves with the catalog as
        `AfterSync` says. */
    method Run(sync: Sync, policy: Policy, verdict: nat -> Verdict) returns (report: Report)
      modifies this
      ensures feed == AfterSync(old(feed), sync)
      ensures var tries := Tried(old(feed), sync);
        && report.inserted == Count(tries, Created) && report.linked == Count(tries, Linked)
        && report.dupes == Count(tries, Duplicate) && report.errors == Count(tries, Failed)
        && report.inserted + report.linked + report.dupes + report.errors == |Batch(old(feed), sync)|
        && report.advanced == (report.errors == 0) == Clean(old(feed), sync)
        && failures == (if report.errors == 0 then None else Some(report.errors))
        && (|tries| > 0 ==> progress == 0.8)
      ensures var candidates := Considered(Tried(old(feed), sync), policy);
        var verdicts := Verdicts(candidates, verdict);
        && report.analysis.requested == Min(policy.cap, NewJobs(verdicts))
        && report.analysis.reused == Reuses(verdicts, policy.cap, false)
        && report.analysis.requested + report.analysis.reused + report.analysis.skipped == |candidates|
        && report.analysis.dispatched == Dispatches(verdicts, policy.cap)
    {
      hide Batch, Count, Candidates, Saved, Clean, Touched, NewJobs, Reuses, Dispatches;
      var batch := Batch(feed, sync);
      var n := |batch|;
      var inserted, linked, dupes, errors := 0, 0, 0, 0;
      var candidates: seq<nat> := [];
      var persisted := feed.persisted;
      ghost var tries := Tries(batch, sync.answer);
      var i := 0;
      NothingYet(policy.newGamesOnly);
      while i < n
        invariant i <= n && feed == old(feed)
        invariant inserted == Count(tries[..i], Created) && linked == Count(tries[..i], Linked)
        invariant dupes == Count(tries[..i], Duplicate) && errors == Count(tries[..i], Failed)
        invariant candidates == Candidates(tries[..i], policy.newGamesOnly)
        invariant persisted == old(feed).persisted + Saved(tries[..i])
        invariant i == n > 0 ==> progress == 0.8
      {
        var id := batch[i].id;
        TriesGrow(tries, i, policy.newGamesOnly);
        match sync.answer(i) {
          case Created =>
            inserted, candidates, persisted := inserted + 1, candidates + [id], persisted + {id};
          case Linked =>
            linked, persisted := linked + 1, persisted + {id};
            if !policy.newGamesOnly { candidates := candidates + [id]; }
          case Duplicate =>
            dupes, persisted := dupes + 1, persisted + {id};
          case Failed =>
            errors := errors + 1;
        }
        progress := Touched(Progress(i + 1, n));
        LastTouch();
        i := i + 1;
      }
      assert tries[..n] == tries;
      CountsAddUp(tries);
      CleanIsZeroErrors(feed, sync);
      if !policy.autoAnalyze { candidates := []; }
      var analysis := Analyze(candidates, Verdicts(candidates, verdict), policy.cap);
      feed := Feed(if errors == 0 then Some(sync.now) else feed.mark, persisted);
      failures := if errors == 0 then None else Some(errors);
      report := Report(inserted, linked, dupes, errors, analysis, errors == 0);
    }
  }

  /** Without automatic analysis nothing is considered. */
  function Considered(tries: seq<Try>, policy: Policy): seq<nat> {
    if policy.autoAnalyze then Candidates(tries, policy.newGamesOnly) else []
  }

  /** The games considered, exactly: with automatic analysis the created ones and, unless only new ones count, the
      linked ones. */
  lemma ConsideredExactly(tries: seq<Try>, policy: Policy, game: nat)
    ensures game in Considered(tries, policy) <==>
      policy.autoAnalyze
      && exists t :: t in tries && t.game == game && (t.answer == Created || (t.answer == Linked && !policy.newGamesOnly))
  {
    CandidatesExactly(tries, policy.newGamesOnly, game);
  }

  /** What the i-th candidate is answered. */
  function Verdicts(candidates: seq<nat>, verdict: nat -> Verdict): (verdicts: seq<Verdict>)
    ensures |verdicts| == |candidates| && forall i :: 0 <= i < |verdicts| ==> verdicts[i] == verdict(i)
  {
    seq(|candidates|, i requires 0 <= i < |candidates| => verdict(i))
  }

  /** One more game of the batch. */
  lemma TriesGrow(tries: seq<Try>, i: nat, newOnly: bool)
    requires i < |tries|
    ensures var t := tries[i];
      && (forall a :: Count(tries[..i + 1], a) == Count(tries[..i], a) + if t.answer == a then 1 else 0)
      && Saved(tries[..i + 1]) == Saved(tries[..i]) + (if t.answer != Failed then {t.game} else {})
      && Candidates(tries[..i + 1], newOnly) ==
           Candidates(tries[..i], newOnly)
           + if t.answer == Created || (t.answer == Linked && !newOnly) then [t.game] else []
  {
    assert tries[..i + 1][..i] == tries[..i];
    assert tries[..i + 1] == tries[..i] + [tries[i]];
  }

  lemma NothingYet(newOnly: bool)
    ensures forall a :: Count([], a) == 0
    ensures Saved([]) == {} && Candidates([], newOnly) == []
  {}

  /** How far the job is after `i` of `n` games. */
  function Progress(i: nat, n: nat): (r: real)
    requires 0 < n
    ensures i == n ==> r == 0.8
  {
    DivSelf(n as real);
    0.1 + 0.7 * (i as real / n as real)
  }

  lemma DivSelf(x: real)
    requires x > 0.0
    ensures x / x == 1.0
  {}

  lemma LastTouch()
    ensures Touched(0.8) == 0.8
  {}
}
