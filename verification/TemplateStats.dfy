/** Daily snapshots and the template averages folded from them: `upsert_snapshot`,
    `apply_template_performance_sample` and `sync_post_snapshots`, for one tenant. */
module TemplateStats {
  import Totals
  import opened Wrappers

  /** The five averaged metrics; the database's floats are reals here. */
  datatype Sample = Sample(impressions: real, likes: real, comments: real, shares: real, ctr: real)

  function Plus(a: Sample, b: Sample): Sample {
    Sample(a.impressions + b.impressions, a.likes + b.likes, a.comments + b.comments, a.shares + b.shares, a.ctr + b.ctr)
  }

  function Times(a: Sample, n: nat): Sample {
    var x := n as real;
    Sample(a.impressions * x, a.likes * x, a.comments * x, a.shares * x, a.ctr * x)
  }

  function Over(a: Sample, n: nat): Sample
    requires n > 0
  {
    var x := n as real;
    Sample(a.impressions / x, a.likes / x, a.comments / x, a.shares / x, a.ctr / x)
  }

  const ZERO := Sample(0.0, 0.0, 0.0, 0.0, 0.0)

  function Sum(samples: seq<Sample>): Sample {
    if |samples| == 0 then ZERO else Plus(Sum(samples[..|samples| - 1]), samples[|samples| - 1])
  }

  datatype Key = Key(platform: string, tone: string, vertical: string)

  datatype Template = Template(count: nat, avg: Sample)

  /** One sample folded into a row, or into a new one. */
  function Folded(row: Option<Template>, x: Sample): Template {
    match row
    case None => Template(1, x)
    case Some(t) => Template(t.count + 1, Over(Plus(Times(t.avg, t.count), x), t.count + 1))
  }

  /** One metric of the conflict clause. */
  function RunningMean(avg: real, n: nat, x: real): real {
    (avg * n as real + x) / (n + 1) as real
  }

  lemma FoldedByMetric(t: Template, x: Sample)
    ensures Folded(Some(t), x) == Template(t.count + 1, Sample(
      RunningMean(t.avg.impressions, t.count, x.impressions), RunningMean(t.avg.likes, t.count, x.likes),
      RunningMean(t.avg.comments, t.count, x.comments), RunningMean(t.avg.shares, t.count, x.shares),
      RunningMean(t.avg.ctr, t.count, x.ctr)))
  {}

  // ---- A row is the mean of its samples ----

  /** The averages are the exact mean of these samples. */
  predicate Mean(t: Template, samples: seq<Sample>) {
    t.count == |samples| && t.count > 0 && Times(t.avg, t.count) == Sum(samples)
  }

  lemma DivideBack(x: real, n: real)
    requires n > 0.0
    ensures x / n * n == x
  {}

  lemma TimesOver(a: Sample, n: nat)
    requires n > 0
    ensures Times(Over(a, n), n) == a
  {
    var x := n as real;
    DivideBack(a.impressions, x);
    DivideBack(a.likes, x);
    DivideBack(a.comments, x);
    DivideBack(a.shares, x);
    DivideBack(a.ctr, x);
  }

  lemma FoldKeepsMean(t: Template, samples: seq<Sample>, x: Sample)
    requires Mean(t, samples)
    ensures Mean(Folded(Some(t), x), samples + [x])
  {
    hide Times, Over, Plus;
    var more := samples + [x];
    assert more[..|more| - 1] == samples;
    TimesOver(Plus(Times(t.avg, t.count), x), t.count + 1);
  }

  lemma FirstFoldIsMean(x: Sample)
    ensures Mean(Folded(None, x), [x])
  {
    assert [x][..0] == [];
  }

  lemma {:induction false} SumWithout(samples: seq<Sample>, i: nat)
    requires i < |samples|
    ensures Sum(samples) == Plus(Sum(Without(samples, i)), samples[i])
  {
    var last := |samples| - 1;
    var rest := samples[..i] + samples[i + 1..];
    if i == last {
      assert rest == samples[..last];
    } else {
      SumWithout(samples[..last], i);
      assert rest[..last - 1] == samples[..last][..i] + samples[..last][i + 1..];
      assert rest[last - 1] == samples[last];
    }
  }

  lemma {:induction false} SumPermutes(a: seq<Sample>, b: seq<Sample>)
    requires multiset(a) == multiset(b)
    ensures |a| == |b| && Sum(a) == Sum(b)
  {
    assert |a| == |multiset(a)| == |b|;
    if |a| > 0 {
      hide Plus;
      var last := |a| - 1;
      assert a[last] in multiset(b);
      var i :| 0 <= i < |b| && b[i] == a[last];
      DropOne(a, last);
      DropOne(b, i);
      assert Without(a, last) == a[..last];
      SumPermutes(a[..last], Without(b, i));
      SumWithout(b, i);
    }
  }

  lemma EqualProducts(x: real, y: real, n: real)
    requires n > 0.0 && x * n == y * n
    ensures x == y
  {
    DivideBack(x * n, n);
    assert (x - y) * n == 0.0;
  }

  /** Order does not matter: the same samples in any order give the same row. */
  lemma MeanIsOrderFree(t: Template, u: Template, a: seq<Sample>, b: seq<Sample>)
    requires Mean(t, a) && Mean(u, b) && multiset(a) == multiset(b)
    ensures t == u
  {
    SumPermutes(a, b);
    var n := t.count as real;
    EqualProducts(t.avg.impressions, u.avg.impressions, n);
    EqualProducts(t.avg.likes, u.avg.likes, n);
    EqualProducts(t.avg.comments, u.avg.comments, n);
    EqualProducts(t.avg.shares, u.avg.shares, n);
    EqualProducts(t.avg.ctr, u.avg.ctr, n);
  }

  // ---- The template table and what was folded into it ----

  /** A snapshot row's key. */
  datatype Row = Row(post: nat, date: nat)

  datatype Credit = Credit(row: Row, key: Key, sample: Sample)

  function SamplesFor(folds: seq<Credit>, key: Key): seq<Sample> {
    if |folds| == 0 then []
    else
      var c := folds[|folds| - 1];
      var before := SamplesFor(folds[..|folds| - 1], key);
      if c.key == key then before + [c.sample] else before
  }

  function Lookup<K, V>(m: map<K, V>, k: K): Option<V> {
    if k in m then Some(m[k]) else None
  }

  /** Each row is the mean of what was folded under its key, and there is a row for each such key. */
  ghost predicate Exact(templates: map<Key, Template>, folds: seq<Credit>) {
    forall k :: if k in templates then Mean(templates[k], SamplesFor(folds, k)) else SamplesFor(folds, k) == []
  }

  /** The sample counts of the table. */
  function Counts(templates: map<Key, Template>): map<Key, int> {
    map k | k in templates :: templates[k].count
  }

  /** The sum of `sample_count` over the table. */
  ghost function Total(templates: map<Key, Template>): int {
    Totals.Total(Counts(templates))
  }

  function AfterFold(templates: map<Key, Template>, c: Credit): map<Key, Template> {
    templates[c.key := Folded(Lookup(templates, c.key), c.sample)]
  }

  lemma FoldKeepsExact(templates: map<Key, Template>, folds: seq<Credit>, c: Credit)
    requires Exact(templates, folds)
    ensures Exact(AfterFold(templates, c), folds + [c])
  {
    hide Mean, Folded;
    var more := folds + [c];
    assert more[..|more| - 1] == folds;
    if c.key in templates {
      FoldKeepsMean(templates[c.key], SamplesFor(folds, c.key), c.sample);
    } else {
      FirstFoldIsMean(c.sample);
      assert SamplesFor(more, c.key) == [c.sample];
    }
  }

  lemma FoldAddsOne(templates: map<Key, Template>, c: Credit)
    ensures Total(AfterFold(templates, c)) == Total(templates) + 1
  {
    hide Times, Over, Plus, Totals.Total;
    Totals.TotalMoves(Counts(templates), c.key, Folded(Lookup(templates, c.key), c.sample).count);
    assert Counts(AfterFold(templates, c)) ==
      Counts(templates)[c.key := Folded(Lookup(templates, c.key), c.sample).count];
  }

  // ---- Snapshot upserts converge ----

  datatype Write = Write(row: Row, sample: Sample)

  /** The table after some upserts, whoever issued them. */
  function AfterWrites(snapshots: map<Row, Sample>, writes: seq<Write>): map<Row, Sample> {
    if |writes| == 0 then snapshots
    else
      var w := writes[|writes| - 1];
      AfterWrites(snapshots, writes[..|writes| - 1])[w.row := w.sample]
  }

  /** How many of the upserts of `row` are told that they inserted it. */
  function InsertsOf(snapshots: map<Row, Sample>, writes: seq<Write>, row: Row): nat {
    if |writes| == 0 then 0
    else
      var before := writes[..|writes| - 1];
      var last := writes[|writes| - 1].row;
      InsertsOf(snapshots, before, row) + if last == row && row !in AfterWrites(snapshots, before) then 1 else 0
  }

  lemma UpsertGrows(snapshots: map<Row, Sample>, row: Row, sample: Sample)
    ensures |snapshots[row := sample]| == |snapshots| + if row in snapshots then 0 else 1
    ensures snapshots[row := sample].Keys == snapshots.Keys + {row}
  {
    assert snapshots[row := sample].Keys == snapshots.Keys + {row};
  }

  lemma UpsertIsUpdate(snapshots: map<Row, Sample>, after: map<Row, Sample>, row: Row, sample: Sample, inserted: bool)
    requires |after| == |snapshots| + if inserted then 1 else 0
    requires after.Keys == snapshots.Keys + {row} && after[row] == sample
    requires forall r :: r in snapshots && r != row ==> after[r] == snapshots[r]
    ensures after == snapshots[row := sample] && inserted == (row !in snapshots)
  {
    UpsertGrows(snapshots, row, sample);
    assert after == snapshots[row := sample];
  }

  /** However many upserts race for one (post, date), they converge on one row: exactly one of them is told that
      it inserted, and none when the row was there; the row holds the sample written last. */
  lemma {:induction false} UpsertsConverge(snapshots: map<Row, Sample>, writes: seq<Write>, row: Row)
    ensures var after := AfterWrites(snapshots, writes);
      && InsertsOf(snapshots, writes, row) == (if row in after && row !in snapshots then 1 else 0)
      && (row in after <==> row in snapshots || exists i :: 0 <= i < |writes| && writes[i].row == row)
      && (forall i :: 0 <= i < |writes| && writes[i].row == row && (forall j :: i < j < |writes| ==> writes[j].row != row) ==>
            after[row] == writes[i].sample)
  {
    if |writes| > 0 {
      var n := |writes| - 1;
      var init := writes[..n];
      UpsertsConverge(snapshots, init, row);
      assert forall i :: 0 <= i < n ==> init[i] == writes[i];
    }
  }

  // ---- Racing syncs ----

  /** A published post to sync. */
  datatype Context = Context(post: nat, key: Key)

  /** One sync: its date, the posts it saw a snapshot for at the start, the posts still to do, and the fold its
      last upsert calls for. */
  datatype Sync = Sync(today: nat, known: set<nat>, todo: seq<Context>, pending: Option<Credit>)

  /** `folds` and `lost` are history: the folds that went through and the number that raised. */
  datatype State = State(
    snapshots: map<Row, Sample>, templates: map<Key, Template>, syncs: map<nat, Sync>, folds: seq<Credit>, lost: nat)

  datatype Step =
    | Begin(i: nat, today: nat, todo: seq<Context>)
    | Upsert(i: nat, sample: Sample)
    | Fold(i: nat, raises: bool)

  predicate Enabled(s: State, step: Step) {
    match step
    case Begin(i, _, _) => i !in s.syncs
    case Upsert(i, _) => i in s.syncs && s.syncs[i].pending.None? && |s.syncs[i].todo| > 0
    case Fold(i, _) => i in s.syncs && s.syncs[i].pending.Some?
  }

  function Known(snapshots: map<Row, Sample>, today: nat, todo: seq<Context>): set<nat> {
    set c | c in todo && Row(c.post, today) in snapshots :: c.post
  }

  /** Does this upsert insert, as far as the sync can tell? */
  predicate Inserts(snapshots: map<Row, Sample>, sync: Sync)
    requires |sync.todo| > 0
  {
    Row(sync.todo[0].post, sync.today) !in snapshots && sync.todo[0].post !in sync.known
  }

  function Upserted(snapshots: map<Row, Sample>, sync: Sync, sample: Sample): Sync
    requires |sync.todo| > 0
  {
    var c := sync.todo[0];
    sync.(todo := sync.todo[1..],
          pending := if Inserts(snapshots, sync) then Some(Credit(Row(c.post, sync.today), c.key, sample)) else None)
  }

  function Next(s: State, step: Step): State
    requires Enabled(s, step)
  {
    match step
    case Begin(i, today, todo) => s.(syncs := s.syncs[i := Sync(today, Known(s.snapshots, today, todo), todo, None)])
    case Upsert(i, sample) =>
      var sync := s.syncs[i];
      s.(snapshots := s.snapshots[Row(sync.todo[0].post, sync.today) := sample],
         syncs := s.syncs[i := Upserted(s.snapshots, sync, sample)])
    case Fold(i, raises) =>
      var credit := s.syncs[i].pending.value;
      var moved := s.(syncs := s.syncs[i := s.syncs[i].(pending := None)]);
      if raises then moved.(lost := s.lost + 1)
      else moved.(templates := AfterFold(s.templates, credit), folds := s.folds + [credit])
  }

  predicate Legal(s: State, steps: seq<Step>)
    decreases |steps|
  {
    |steps| == 0 || (Enabled(s, steps[0]) && Legal(Next(s, steps[0]), steps[1..]))
  }

  function Exec(s: State, steps: seq<Step>): State
    requires Legal(s, steps)
    decreases |steps|
  {
    if |steps| == 0 then s else Exec(Next(s, steps[0]), steps[1..])
  }

  const EMPTY := State(map[], map[], map[], [], 0)

  predicate HasPending(sync: Sync) {
    sync.pending.Some?
  }

  function Pending(syncs: map<nat, Sync>): set<nat> {
    set i | i in syncs && HasPending(syncs[i])
  }

  /** A sync's view of the past is still true, and its pending fold is for an inserted row. */
  ghost predicate SyncOk(snapshots: map<Row, Sample>, folds: seq<Credit>, sync: Sync) {
    && (forall p :: p in sync.known ==> Row(p, sync.today) in snapshots)
    && (sync.pending.Some? ==>
          sync.pending.value.row in snapshots
          && forall k :: 0 <= k < |folds| ==> folds[k].row != sync.pending.value.row)
  }

  ghost predicate OneFoldPerRow(s: State) {
    && (forall i :: i in s.syncs ==> SyncOk(s.snapshots, s.folds, s.syncs[i]))
    && (forall i, j :: i in s.syncs && j in s.syncs && i != j && HasPending(s.syncs[i]) && HasPending(s.syncs[j]) ==>
          s.syncs[i].pending.value.row != s.syncs[j].pending.value.row)
    && (forall k :: 0 <= k < |s.folds| ==> s.folds[k].row in s.snapshots)
    && (forall k, l :: 0 <= k < l < |s.folds| ==> s.folds[k].row != s.folds[l].row)
  }

  /** Nothing is counted twice and nothing goes missing. */
  ghost predicate Conserved(s: State) {
    Total(s.templates) == |s.folds| && |s.folds| + s.lost + |Pending(s.syncs)| == |s.snapshots|
  }

  ghost predicate Inv(s: State) {
    OneFoldPerRow(s) && Conserved(s) && Exact(s.templates, s.folds)
  }

  lemma PendingMoved(syncs: map<nat, Sync>, i: nat, sync: Sync)
    ensures |Pending(syncs[i := sync])| ==
      |Pending(syncs)| + (if HasPending(sync) then 1 else 0) - (if i in syncs && HasPending(syncs[i]) then 1 else 0)
  {
    hide HasPending;
    var rest := Pending(syncs) - {i};
    if HasPending(sync) {
      assert Pending(syncs[i := sync]) == rest + {i};
    } else {
      assert Pending(syncs[i := sync]) == rest;
    }
  }

  lemma BeginKeepsInv(s: State, step: Step)
    requires Inv(s) && step.Begin? && Enabled(s, step)
    ensures Inv(Next(s, step))
  {
    hide Exact, Total;
    PendingMoved(s.syncs, step.i, Next(s, step).syncs[step.i]);
  }

  lemma UpsertCounts(s: State, step: Step)
    requires Inv(s) && step.Upsert? && Enabled(s, step)
    ensures Conserved(Next(s, step))
  {
    hide Exact, Total;
    var sync := s.syncs[step.i];
    assert SyncOk(s.snapshots, s.folds, sync);
    PendingMoved(s.syncs, step.i, Next(s, step).syncs[step.i]);
  }

  lemma UpsertKeepsInv(s: State, step: Step)
    requires Inv(s) && step.Upsert? && Enabled(s, step)
    ensures Inv(Next(s, step))
  {
    UpsertCounts(s, step);
    hide Exact, Total, Conserved;
    var s' := Next(s, step);
    forall i | i in s'.syncs ensures SyncOk(s'.snapshots, s'.folds, s'.syncs[i]) {
      assert SyncOk(s.snapshots, s.folds, s.syncs[i]);
    }
    forall i | i in s.syncs && HasPending(s.syncs[i]) ensures s.syncs[i].pending.value.row in s.snapshots {
      assert SyncOk(s.snapshots, s.folds, s.syncs[i]);
    }
  }

  lemma FoldCounts(s: State, step: Step)
    requires Inv(s) && step.Fold? && Enabled(s, step)
    ensures Conserved(Next(s, step)) && Exact(Next(s, step).templates, Next(s, step).folds)
  {
    hide Exact, Total, AfterFold, OneFoldPerRow;
    var credit := s.syncs[step.i].pending.value;
    PendingMoved(s.syncs, step.i, Next(s, step).syncs[step.i]);
    if !step.raises {
      FoldKeepsExact(s.templates, s.folds, credit);
      FoldAddsOne(s.templates, credit);
    }
  }

  lemma FoldKeepsSync(s: State, step: Step, i: nat)
    requires OneFoldPerRow(s) && step.Fold? && Enabled(s, step) && i in s.syncs
    ensures SyncOk(s.snapshots, Next(s, step).folds, Next(s, step).syncs[i])
  {
    hide AfterFold;
    assert SyncOk(s.snapshots, s.folds, s.syncs[i]);
    if i != step.i && HasPending(s.syncs[i]) {
      assert s.syncs[i].pending.value.row != s.syncs[step.i].pending.value.row;
    }
  }

  lemma FoldKeepsRowsApart(s: State, step: Step)
    requires OneFoldPerRow(s) && step.Fold? && Enabled(s, step)
    ensures OneFoldPerRow(Next(s, step))
  {
    hide AfterFold, SyncOk;
    var s' := Next(s, step);
    forall i | i in s.syncs ensures SyncOk(s'.snapshots, s'.folds, s'.syncs[i]) { FoldKeepsSync(s, step, i); }
    PendingIsFresh(s, step.i);
    if step.raises {
      assert s'.folds == s.folds;
    } else {
      forall k | 0 <= k < |s'.folds| ensures s'.folds[k].row in s.snapshots {}
      forall k, l | 0 <= k < l < |s'.folds| ensures s'.folds[k].row != s'.folds[l].row {}
    }
  }

  lemma FoldKeepsInv(s: State, step: Step)
    requires Inv(s) && step.Fold? && Enabled(s, step)
    ensures Inv(Next(s, step))
  {
    hide Exact, Conserved, OneFoldPerRow;
    FoldCounts(s, step);
    FoldKeepsRowsApart(s, step);
  }

  lemma PendingIsFresh(s: State, i: nat)
    requires OneFoldPerRow(s) && i in s.syncs && HasPending(s.syncs[i])
    ensures var row := s.syncs[i].pending.value.row;
      row in s.snapshots && forall k :: 0 <= k < |s.folds| ==> s.folds[k].row != row
  {
    assert SyncOk(s.snapshots, s.folds, s.syncs[i]);
  }

  lemma {:induction false} RunInv(s: State, steps: seq<Step>)
    requires Inv(s) && Legal(s, steps)
    ensures Inv(Exec(s, steps))
    decreases |steps|
  {
    if |steps| > 0 {
      hide Inv;
      match steps[0] {
        case Begin(_, _, _) => BeginKeepsInv(s, steps[0]);
        case Upsert(_, _) => UpsertKeepsInv(s, steps[0]);
        case Fold(_, _) => FoldKeepsInv(s, steps[0]);
      }
      RunInv(Next(s, steps[0]), steps[1..]);
    }
  }

  /** Main result: after any interleaving of syncs every template row is the exact mean of the samples folded
      into it, no snapshot row is folded twice, and the sample counts, the folds still to come and the folds
      that raised add up to the snapshot rows. */
  lemma CountsMatchSnapshots(steps: seq<Step>)
    requires Legal(EMPTY, steps)
    ensures var s := Exec(EMPTY, steps);
      && Exact(s.templates, s.folds)
      && Total(s.templates) + |Pending(s.syncs)| + s.lost == |s.snapshots|
      && (forall k, l :: 0 <= k < l < |s.folds| ==> s.folds[k].row != s.folds[l].row)
      && (forall k :: 0 <= k < |s.folds| ==> s.folds[k].row in s.snapshots)
  {
    hide Exact, Exec, Legal;
    assert Inv(EMPTY) by { EmptyInv(); }
    RunInv(EMPTY, steps);
  }

  lemma EmptyInv()
    ensures Inv(EMPTY)
  {
    assert Pending(map[]) == {};
  }

  // ---- One sync, alone ----

  /** A sync with nothing pending may be forgotten. */
  lemma Retire(s: State, i: nat)
    requires Inv(s) && i in s.syncs && s.syncs[i].pending.None?
    ensures Inv(s.(syncs := s.syncs - {i}))
  {
    hide Exact, Total, SyncOk;
    assert Pending(s.syncs - {i}) == Pending(s.syncs);
    forall j | j in s.syncs - {i} ensures SyncOk(s.snapshots, s.folds, (s.syncs - {i})[j]) {}
  }

  /** The two tables; `folds` and `lost` are history as in `State`. */
  class Repository {
    var snapshots: map<Row, Sample>
    var templates: map<Key, Template>
    ghost var folds: seq<Credit>
    ghost var lost: nat

    ghost function With(syncs: map<nat, Sync>): State
      reads this
    {
      State(snapshots, templates, syncs, folds, lost)
    }

    ghost predicate Valid()
      reads this
    {
      Inv(With(map[]))
    }

    constructor ()
      ensures Valid() && snapshots == map[] && templates == map[] && folds == [] && lost == 0
    {
      snapshots, templates, folds, lost := map[], map[], [], 0;
      new;
      EmptyInv();
    }

    /** The answer is whether the table grew; the row then holds the sample, and no other row is touched. */
    method UpsertSnapshot(row: Row, sample: Sample) returns (inserted: bool)
      modifies this`snapshots
      ensures |snapshots| == |old(snapshots)| + if inserted then 1 else 0
      ensures snapshots.Keys == old(snapshots).Keys + {row} && snapshots[row] == sample
      ensures forall r :: r in old(snapshots) && r != row ==> snapshots[r] == old(snapshots)[r]
    {
      inserted := row !in snapshots;
      UpsertGrows(snapshots, row, sample);
      snapshots := snapshots[row := sample];
    }

    method ApplySample(c: Credit)
      modifies this`templates, this`folds
      ensures templates == AfterFold(old(templates), c) && folds == old(folds) + [c]
    {
      hide RunningMean, Times, Plus, Over;
      var x := c.sample;
      if c.key !in templates {
        templates := templates[c.key := Template(1, x)];
      } else {
        var t := templates[c.key];
        var n := t.count;
        var avg := Sample(
          RunningMean(t.avg.impressions, n, x.impressions), RunningMean(t.avg.likes, n, x.likes),
          RunningMean(t.avg.comments, n, x.comments), RunningMean(t.avg.shares, n, x.shares),
          RunningMean(t.avg.ctr, n, x.ctr));
        FoldedByMetric(t, x);
        templates := templates[c.key := Template(t.count + 1, avg)];
      }
      folds := folds + [c];
    }

    /** The state of the tables with one sync beside them, after the sync's upsert and after its fold. */
    lemma StepsOfOne(sync: Sync, sample: Sample, raises: bool)
      requires |sync.todo| > 0 && sync.pending.None?
      ensures var s := With(map[0 := sync]);
        var upserted := Upserted(snapshots, sync, sample);
        && Next(s, Upsert(0, sample)) ==
             s.(snapshots := snapshots[Row(sync.todo[0].post, sync.today) := sample], syncs := map[0 := upserted])
        && (upserted.pending.Some? ==>
              Next(Next(s, Upsert(0, sample)), Fold(0, raises)) ==
                var folded := Next(s, Upsert(0, sample)).(syncs := map[0 := upserted.(pending := None)]);
                if raises then folded.(lost := lost + 1)
                else folded.(templates := AfterFold(templates, upserted.pending.value),
                             folds := folds + [upserted.pending.value]))
    {
      hide AfterFold;
      var upserted := Upserted(snapshots, sync, sample);
      assert map[0 := sync][0 := upserted] == map[0 := upserted];
      assert map[0 := upserted][0 := upserted.(pending := None)] == map[0 := upserted.(pending := None)];
    }

    /** The state after the sync's next post: its snapshot written, and folded if this sync inserted it. */
    ghost function AfterPost(sync: Sync, sample: Sample, raises: bool): State
      requires |sync.todo| > 0
      reads this
    {
      var c := sync.todo[0];
      var row := Row(c.post, sync.today);
      var inserted := row !in snapshots && c.post !in sync.known;
      var credit := Credit(row, c.key, sample);
      State(snapshots[row := sample],
            if inserted && !raises then AfterFold(templates, credit) else templates,
            map[0 := sync.(todo := sync.todo[1..])],
            if inserted && !raises then folds + [credit] else folds,
            if inserted && raises then lost + 1 else lost)
    }

    /** It is the upsert step and, when that calls for one, the fold step. */
    lemma PostIsSteps(sync: Sync, sample: Sample, raises: bool)
      requires |sync.todo| > 0 && sync.pending.None?
      ensures var s := With(map[0 := sync]);
        && Enabled(s, Upsert(0, sample))
        && var s' := Next(s, Upsert(0, sample));
           if Upserted(snapshots, sync, sample).pending.None? then s' == AfterPost(sync, sample, raises)
           else Enabled(s', Fold(0, raises)) && Next(s', Fold(0, raises)) == AfterPost(sync, sample, raises)
    {
      StepsOfOne(sync, sample, raises);
      hide AfterFold, Next;
    }

    lemma PostKeepsInv(sync: Sync, sample: Sample, raises: bool)
      requires |sync.todo| > 0 && sync.pending.None? && Inv(With(map[0 := sync]))
      ensures Inv(AfterPost(sync, sample, raises))
    {
      hide Inv, Next, Enabled, AfterPost, Upserted;
      var s := With(map[0 := sync]);
      PostIsSteps(sync, sample, raises);
      UpsertKeepsInv(s, Upsert(0, sample));
      if Upserted(snapshots, sync, sample).pending.Some? { FoldKeepsInv(Next(s, Upsert(0, sample)), Fold(0, raises)); }
    }

    /** One post of a sync: upsert its snapshot, and fold only a row this sync inserted. */
    method SyncPost(ghost sync: Sync, c: Context, today: nat, known: set<nat>, sample: Sample, raises: bool)
      requires |sync.todo| > 0 && sync.todo[0] == c && sync.today == today && sync.known == known
      requires sync.pending.None? && Inv(With(map[0 := sync]))
      modifies this
      ensures Inv(With(map[0 := sync.(todo := sync.todo[1..])]))
      ensures snapshots == old(snapshots)[Row(c.post, today) := sample]
      ensures var inserted := Row(c.post, today) !in old(snapshots) && c.post !in known;
        var credit := Credit(Row(c.post, today), c.key, sample);
        && templates == (if inserted && !raises then AfterFold(old(templates), credit) else old(templates))
        && folds == (if inserted && !raises then old(folds) + [credit] else old(folds))
        && lost == (if inserted && raises then old(lost) + 1 else old(lost))
    {
      hide Inv, AfterFold;
      PostKeepsInv(sync, sample, raises);
      ghost var goal := AfterPost(sync, sample, raises);
      ghost var before := snapshots;
      var row := Row(c.post, today);
      var inserted := UpsertSnapshot(row, sample);
      UpsertIsUpdate(before, snapshots, row, sample, inserted);
      if c.post in known { inserted := false; }
      if inserted {
        if raises { lost := lost + 1; } else { ApplySample(Credit(row, c.key, sample)); }
      }
      assert With(map[0 := sync.(todo := sync.todo[1..])]) == goal;
    }

    /** `sync_post_snapshots`: what was fetched for each post, or else its synthetic numbers; `raises` says which
        folds fail.  Each new row adds one sample or one lost fold, and a same-day repeat adds none. */
    method SyncPostSnapshots(
        today: nat, contexts: seq<Context>, fetched: seq<Option<Sample>>, synthetic: seq<Sample>, raises: seq<bool>)
      requires Valid() && |contexts| == |fetched| == |synthetic| == |raises|
      modifies this
      ensures Valid()
      ensures forall r :: r in snapshots <==> r in old(snapshots) || Synced(contexts, |contexts|, today, r)
      ensures Stored(old(snapshots), snapshots, today, contexts, fetched, synthetic)
      ensures FoldsOf(old(snapshots), old(folds), folds, today, contexts, fetched, synthetic)
      ensures Total(templates) + lost - old(Total(templates) + lost) == |snapshots| - |old(snapshots)|
      ensures old(folds) <= folds && old(lost) <= lost
      ensures (forall r :: Synced(contexts, |contexts|, today, r) ==> r in old(snapshots)) ==>
        templates == old(templates) && lost == old(lost) && |snapshots| == |old(snapshots)|
    {
      hide Inv, Exact, Total, AfterFold, AfterWrites, WritesOf, Stored, FoldsOf;
      ghost var before, folded := snapshots, folds;
      ghost var writes := WritesOf(today, contexts, fetched, synthetic);
      NoWrites(before, writes);
      NoFolds(before, folds, today, contexts, fetched, synthetic);
      WritesMean(before, today, contexts, fetched, synthetic);
      Totals();
      if |contexts| == 0 { return; }
      var known := Known(snapshots, today, contexts);
      ghost var sync := Sync(today, known, contexts, None);
      BeginKeepsInv(With(map[]), Begin(0, today, contexts));
      assert With(map[0 := sync]) == Next(With(map[]), Begin(0, today, contexts));
      var i := 0;
      while i < |contexts|
        invariant i <= |contexts| && sync == Sync(today, known, contexts[i..], None)
        invariant Inv(With(map[0 := sync]))
        invariant forall r :: r in snapshots <==> r in old(snapshots) || Synced(contexts, i, today, r)
        invariant snapshots == AfterWrites(before, writes[..i])
        invariant FoldsOf(before, folded, folds, today, contexts, fetched, synthetic)
        invariant forall r :: r in before ==> r in snapshots
        invariant old(folds) <= folds && old(lost) <= lost
        invariant (forall r :: Synced(contexts, i, today, r) ==> r in old(snapshots)) ==>
          templates == old(templates) && lost == old(lost)
      {
        var sample := if fetched[i].Some? then fetched[i].value else synthetic[i];
        OneMoreWrite(before, writes, i);
        OneMoreFold(before, folded, folds, today, contexts, fetched, synthetic, i);
        SyncPost(sync, contexts[i], today, known, sample, raises[i]);
        assert Synced(contexts, i + 1, today, Row(contexts[i].post, today));
        sync := sync.(todo := sync.todo[1..]);
        i := i + 1;
      }
      assert writes[..i] == writes;
      Retire(With(map[0 := sync]), 0);
      assert map[0 := sync] - {0} == map[];
      Totals();
      if forall r :: Synced(contexts, |contexts|, today, r) ==> r in old(snapshots) {
        assert snapshots.Keys == old(snapshots).Keys;
      }
    }

    /** Alone, nothing is pending. */
    lemma Totals()
      requires Valid()
      ensures |snapshots| == Total(templates) + lost
    {
      assert Pending(map[]) == {};
    }
  }

  /** The sample of a post: what was fetched, or else its synthetic numbers. */
  function Chosen(fetched: seq<Option<Sample>>, synthetic: seq<Sample>, i: nat): Sample
    requires i < |fetched| == |synthetic|
  {
    if fetched[i].Some? then fetched[i].value else synthetic[i]
  }

  /** The upserts of a sync, in order. */
  function WritesOf(
      today: nat, contexts: seq<Context>, fetched: seq<Option<Sample>>, synthetic: seq<Sample>): (writes: seq<Write>)
    requires |contexts| == |fetched| == |synthetic|
    ensures |writes| == |contexts|
    ensures forall i :: 0 <= i < |writes| ==> writes[i] == Write(Row(contexts[i].post, today), Chosen(fetched, synthetic, i))
  {
    seq(|contexts|, i requires 0 <= i < |contexts| => Write(Row(contexts[i].post, today), Chosen(fetched, synthetic, i)))
  }

  /** The post is not listed again after place `i`. */
  predicate LastOf(contexts: seq<Context>, i: nat)
    requires i < |contexts|
  {
    forall j :: i < j < |contexts| ==> contexts[j].post != contexts[i].post
  }

  /** A fold of this sync: the sample of one of its posts, under that post's template, for a row it inserted. */
  ghost predicate FoldOf(
      before: map<Row, Sample>, today: nat, contexts: seq<Context>, fetched: seq<Option<Sample>>,
      synthetic: seq<Sample>, c: Credit)
    requires |contexts| == |fetched| == |synthetic|
  {
    && c.row !in before
    && exists i :: 0 <= i < |contexts| && c == CreditOf(today, contexts, fetched, synthetic, i)
  }

  function CreditOf(
      today: nat, contexts: seq<Context>, fetched: seq<Option<Sample>>, synthetic: seq<Sample>, i: nat): Credit
    requires |contexts| == |fetched| == |synthetic| && i < |contexts|
  {
    Credit(Row(contexts[i].post, today), contexts[i].key, Chosen(fetched, synthetic, i))
  }

  /** The new folds are folds of this sync. */
  ghost predicate FoldsOf(
      before: map<Row, Sample>, earlier: seq<Credit>, folds: seq<Credit>, today: nat, contexts: seq<Context>,
      fetched: seq<Option<Sample>>, synthetic: seq<Sample>)
    requires |contexts| == |fetched| == |synthetic|
  {
    && earlier <= folds
    && forall k :: |earlier| <= k < |folds| ==> FoldOf(before, today, contexts, fetched, synthetic, folds[k])
  }

  lemma NoFolds(
      before: map<Row, Sample>, folds: seq<Credit>, today: nat, contexts: seq<Context>, fetched: seq<Option<Sample>>,
      synthetic: seq<Sample>)
    requires |contexts| == |fetched| == |synthetic|
    ensures FoldsOf(before, folds, folds, today, contexts, fetched, synthetic)
  {}

  lemma OneMoreFold(
      before: map<Row, Sample>, earlier: seq<Credit>, folds: seq<Credit>, today: nat, contexts: seq<Context>,
      fetched: seq<Option<Sample>>, synthetic: seq<Sample>, i: nat)
    requires |contexts| == |fetched| == |synthetic| && i < |contexts|
    requires FoldsOf(before, earlier, folds, today, contexts, fetched, synthetic)
    ensures Row(contexts[i].post, today) !in before ==>
      FoldsOf(before, earlier,
              folds + [Credit(Row(contexts[i].post, today), contexts[i].key, Chosen(fetched, synthetic, i))],
              today, contexts, fetched, synthetic)
  {
    hide Chosen;
    assert CreditOf(today, contexts, fetched, synthetic, i) ==
      Credit(Row(contexts[i].post, today), contexts[i].key, Chosen(fetched, synthetic, i));
  }

  /** Every post's row holds the sample of its last listing, fetched or synthetic, and the rows of other posts are what
      they were. */
  ghost predicate Stored(
      before: map<Row, Sample>, after: map<Row, Sample>, today: nat, contexts: seq<Context>,
      fetched: seq<Option<Sample>>, synthetic: seq<Sample>)
    requires |contexts| == |fetched| == |synthetic|
  {
    && (forall i :: 0 <= i < |contexts| && LastOf(contexts, i) ==>
          var row := Row(contexts[i].post, today);
          row in after && match fetched[i] case Some(sample) => after[row] == sample case None => after[row] == synthetic[i])
    && (forall r :: r in before && !Synced(contexts, |contexts|, today, r) ==> r in after && after[r] == before[r])
  }

  lemma NoWrites(snapshots: map<Row, Sample>, writes: seq<Write>)
    ensures AfterWrites(snapshots, writes[..0]) == snapshots && writes[..|writes|] == writes
  {}

  lemma OneMoreWrite(snapshots: map<Row, Sample>, writes: seq<Write>, i: nat)
    requires i < |writes|
    ensures AfterWrites(snapshots, writes[..i + 1]) ==
      AfterWrites(snapshots, writes[..i])[writes[i].row := writes[i].sample]
  {
    assert writes[..i + 1][..i] == writes[..i];
  }

  /** What the upserts of a sync come to. */
  lemma WritesMean(
      snapshots: map<Row, Sample>, today: nat, contexts: seq<Context>, fetched: seq<Option<Sample>>, synthetic: seq<Sample>)
    requires |contexts| == |fetched| == |synthetic|
    ensures Stored(snapshots, AfterWrites(snapshots, WritesOf(today, contexts, fetched, synthetic)),
                   today, contexts, fetched, synthetic)
  {
    var writes := WritesOf(today, contexts, fetched, synthetic);
    hide WritesOf, AfterWrites, Synced;
    forall i | 0 <= i < |contexts| && LastOf(contexts, i)
      ensures var row := Row(contexts[i].post, today);
        row in AfterWrites(snapshots, writes) && AfterWrites(snapshots, writes)[row] == Chosen(fetched, synthetic, i)
    {
      UpsertsConverge(snapshots, writes, Row(contexts[i].post, today));
    }
    forall r | r in snapshots && !Synced(contexts, |contexts|, today, r)
      ensures r in AfterWrites(snapshots, writes) && AfterWrites(snapshots, writes)[r] == snapshots[r]
    {
      NotSynced(contexts, today, r);
      OthersStay(snapshots, writes, r);
    }
  }

  lemma NotSynced(contexts: seq<Context>, today: nat, r: Row)
    requires !Synced(contexts, |contexts|, today, r)
    ensures forall i :: 0 <= i < |contexts| ==> Row(contexts[i].post, today) != r
  {}

  lemma {:induction false} OthersStay(snapshots: map<Row, Sample>, writes: seq<Write>, r: Row)
    requires r in snapshots && forall i :: 0 <= i < |writes| ==> writes[i].row != r
    ensures r in AfterWrites(snapshots, writes) && AfterWrites(snapshots, writes)[r] == snapshots[r]
  {
    if |writes| > 0 { OthersStay(snapshots, writes[..|writes| - 1], r); }
  }

  /** Is `r` the row of one of the first `n` posts? */
  predicate Synced(contexts: seq<Context>, n: nat, today: nat, r: Row)
    requires n <= |contexts|
  {
    exists i :: 0 <= i < n && Row(contexts[i].post, today) == r
  }
}
