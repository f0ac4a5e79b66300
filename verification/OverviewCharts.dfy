/** `aggregate_snapshot_charts`: the buckets of the overview charts, filled in one pass. */
module OverviewCharts {
  import opened Totals
  import opened Wrappers

  /** The parts of a snapshot the charts read; `raw` is its raw payload. */
  datatype Snapshot = Snapshot(
    date: string, platform: string, accountLabel: string, account: Option<string>, format: string, topic: string,
    raw: map<string, string>, views: int, likes: int, comments: int, shares: int, follows: int)

  datatype Chart =
    | ByDate | ByPlatform | ByAccount | ByFormat | ByHook | ByHour | ByBrand | ByTopic | TopicFollows
    | ComparedViews | ComparedEngagement

  type Buckets = map<string, int>

  /** `raw.get(a) or raw.get(b) or default`. */
  function FirstLabel(raw: map<string, string>, a: string, b: string, default: string): string {
    if a in raw && raw[a] != "" then raw[a] else if b in raw && raw[b] != "" then raw[b] else default
  }

  function AccountKey(s: Snapshot): string {
    if s.accountLabel != "" then s.accountLabel
    else if s.account.Some? then
      s.platform + " \U{B7} " + (if |s.account.value| > 8 then s.account.value[..8] else s.account.value)
    else s.platform
  }

  /** The bucket a snapshot falls into; only the topic charts leave some out. */
  function KeyOf(chart: Chart, s: Snapshot): Option<string> {
    match chart
    case ByDate => Some(s.date)
    case ByAccount => Some(AccountKey(s))
    case ByFormat => Some(s.format)
    case ByHook => Some(FirstLabel(s.raw, "hook", "hook_label", "default"))
    case ByHour => Some(FirstLabel(s.raw, "publish_hour", "publish_hour", "unknown"))
    case ByBrand => Some(FirstLabel(s.raw, "brand", "brand_profile", "default"))
    case ByTopic => if s.topic != "" then Some(s.topic) else None
    case TopicFollows => if s.topic != "" then Some(s.topic) else None
    case _ => Some(s.platform)
  }

  function ValueOf(chart: Chart, s: Snapshot): int {
    match chart
    case TopicFollows => s.follows
    case ComparedEngagement => s.likes + s.comments + s.shares
    case _ => s.views
  }

  /** `d[k] += v` on a default dictionary. */
  function Bump(d: Buckets, k: string, v: int): Buckets {
    d[k := (if k in d then d[k] else 0) + v]
  }

  function Filled(chart: Chart, snapshots: seq<Snapshot>): Buckets {
    if |snapshots| == 0 then map[]
    else
      var last := snapshots[|snapshots| - 1];
      var before := Filled(chart, snapshots[..|snapshots| - 1]);
      if KeyOf(chart, last).Some? then Bump(before, KeyOf(chart, last).value, ValueOf(chart, last)) else before
  }

  /** A text of the payload under a key, when there is one. */
  ghost predicate Says(s: Snapshot, key: string, text: string) {
    key in s.raw && s.raw[key] == text && text != ""
  }

  ghost predicate Silent(s: Snapshot, key: string) {
    key in s.raw ==> s.raw[key] == ""
  }

  /** The labels of the payload charts, in the payload's own keys: the first of two that says something, or else the
      default. */
  lemma PayloadLabels(s: Snapshot, text: string)
    ensures Says(s, "hook", text) ==> KeyOf(ByHook, s) == Some(text)
    ensures Silent(s, "hook") && Says(s, "hook_label", text) ==> KeyOf(ByHook, s) == Some(text)
    ensures Silent(s, "hook") && Silent(s, "hook_label") ==> KeyOf(ByHook, s) == Some("default")
    ensures Says(s, "publish_hour", text) ==> KeyOf(ByHour, s) == Some(text)
    ensures Silent(s, "publish_hour") ==> KeyOf(ByHour, s) == Some("unknown")
    ensures Says(s, "brand", text) ==> KeyOf(ByBrand, s) == Some(text)
    ensures Silent(s, "brand") && Says(s, "brand_profile", text) ==> KeyOf(ByBrand, s) == Some(text)
    ensures Silent(s, "brand") && Silent(s, "brand_profile") ==> KeyOf(ByBrand, s) == Some("default")
  {}

  /** The other charts: an account goes by its label, or by its platform and the first eight characters of its id. */
  lemma PlainLabels(s: Snapshot)
    ensures KeyOf(ByDate, s) == Some(s.date) && KeyOf(ByFormat, s) == Some(s.format)
    ensures KeyOf(ByPlatform, s) == KeyOf(ComparedViews, s) == KeyOf(ComparedEngagement, s) == Some(s.platform)
    ensures s.accountLabel != "" ==> KeyOf(ByAccount, s) == Some(s.accountLabel)
    ensures s.accountLabel == "" && s.account == None ==> KeyOf(ByAccount, s) == Some(s.platform)
    ensures s.accountLabel == "" && s.account != None ==>
      exists id :: id <= s.account.value && |id| == (if |s.account.value| < 8 then |s.account.value| else 8)
        && KeyOf(ByAccount, s) == Some(s.platform + " \U{B7} " + id)
    ensures KeyOf(ByTopic, s) == KeyOf(TopicFollows, s) == if s.topic == "" then None else Some(s.topic)
  {
    if s.account.Some? {
      var id := if |s.account.value| > 8 then s.account.value[..8] else s.account.value;
      assert id <= s.account.value;
    }
  }

  /** What a snapshot adds to its bucket. */
  lemma Contributions(s: Snapshot, chart: Chart)
    ensures ValueOf(chart, s) ==
      if chart == TopicFollows then s.follows
      else if chart == ComparedEngagement then s.likes + s.comments + s.shares
      else s.views
  {}

  // ---- What the buckets hold ----

  /** The sum of the values of the snapshots whose key is `k`. */
  function SumAt(chart: Chart, snapshots: seq<Snapshot>, k: Option<string>): int {
    if |snapshots| == 0 then 0
    else
      var last := snapshots[|snapshots| - 1];
      SumAt(chart, snapshots[..|snapshots| - 1], k) + if KeyOf(chart, last) == k then ValueOf(chart, last) else 0
  }

  function SumAll(chart: Chart, snapshots: seq<Snapshot>): int {
    if |snapshots| == 0 then 0
    else SumAll(chart, snapshots[..|snapshots| - 1]) + ValueOf(chart, snapshots[|snapshots| - 1])
  }

  /** Each bucket is the sum over its own snapshots ... */
  lemma {:induction false} BucketIsItsSum(chart: Chart, snapshots: seq<Snapshot>, k: string)
    ensures k in Filled(chart, snapshots) ==> Filled(chart, snapshots)[k] == SumAt(chart, snapshots, Some(k))
    ensures k !in Filled(chart, snapshots) ==> SumAt(chart, snapshots, Some(k)) == 0
  {
    hide KeyOf, ValueOf;
    if |snapshots| > 0 { BucketIsItsSum(chart, snapshots[..|snapshots| - 1], k); }
  }

  predicate Occurs(chart: Chart, snapshots: seq<Snapshot>, k: string) {
    exists i :: 0 <= i < |snapshots| && KeyOf(chart, snapshots[i]) == Some(k)
  }

  /** ... and there is one for each key that occurs. */
  lemma {:induction false} BucketsAreTheKeys(chart: Chart, snapshots: seq<Snapshot>, k: string)
    ensures k in Filled(chart, snapshots) <==> Occurs(chart, snapshots, k)
  {
    hide KeyOf, ValueOf;
    if |snapshots| > 0 {
      var n := |snapshots| - 1;
      var init := snapshots[..n];
      BucketsAreTheKeys(chart, init, k);
      if Occurs(chart, init, k) {
        var i :| 0 <= i < n && KeyOf(chart, init[i]) == Some(k);
        assert KeyOf(chart, snapshots[i]) == Some(k);
      } else if KeyOf(chart, snapshots[n]) != Some(k) {
        forall i | 0 <= i < |snapshots| ensures KeyOf(chart, snapshots[i]) != Some(k) {
          if i < n { assert KeyOf(chart, init[i]) != Some(k); }
        }
      }
    }
  }

  lemma BumpAdds(d: Buckets, k: string, v: int)
    ensures Total(Bump(d, k, v)) == Total(d) + v
  {
    TotalMoves(d, k, (if k in d then d[k] else 0) + v);
  }

  /** Main result: nothing is lost between buckets.  Each chart's buckets sum to the values of the snapshots
      that have a key, which for all but the topic charts is every snapshot. */
  lemma {:induction false} BucketsConserve(chart: Chart, snapshots: seq<Snapshot>)
    ensures Total(Filled(chart, snapshots)) == SumAll(chart, snapshots) - SumAt(chart, snapshots, None)
    ensures !chart.ByTopic? && !chart.TopicFollows? ==> Total(Filled(chart, snapshots)) == SumAll(chart, snapshots)
  {
    if |snapshots| > 0 {
      var n := |snapshots| - 1;
      BucketsConserve(chart, snapshots[..n]);
      var last := snapshots[n];
      hide Bump, Total;
      if KeyOf(chart, last).Some? {
        BumpAdds(Filled(chart, snapshots[..n]), KeyOf(chart, last).value, ValueOf(chart, last));
      }
      hide ValueOf;
    } else {
      assert Total<string>(map[]) == 0;
    }
  }

  /** The overview's own total and the charts agree. */
  lemma ChartsAgreeWithTotals(snapshots: seq<Snapshot>, a: Chart, b: Chart)
    requires CountsViews(a) && CountsViews(b)
    ensures Total(Filled(a, snapshots)) == Total(Filled(b, snapshots))
  {
    BucketsConserve(a, snapshots);
    BucketsConserve(b, snapshots);
    SameSum(a, b, snapshots);
  }

  /** The charts that count every snapshot's views. */
  predicate CountsViews(chart: Chart) {
    !chart.ByTopic? && !chart.TopicFollows? && !chart.ComparedEngagement?
  }

  lemma {:induction false} SameSum(a: Chart, b: Chart, snapshots: seq<Snapshot>)
    requires CountsViews(a) && CountsViews(b)
    ensures SumAll(a, snapshots) == SumAll(b, snapshots)
  {
    if |snapshots| > 0 { SameSum(a, b, snapshots[..|snapshots| - 1]); }
  }

  // ---- The loop ----

  /** The comparison dictionary holds pairs: views, and engagement. */
  type Pairs = map<string, (int, int)>

  function ViewsOf(d: Pairs): Buckets {
    map k | k in d :: d[k].0
  }

  function EngagementOf(d: Pairs): Buckets {
    map k | k in d :: d[k].1
  }

  function BumpPair(d: Pairs, k: string, v: int, e: int): Pairs {
    var (views, engagement) := if k in d then d[k] else (0, 0);
    d[k := (views + v, engagement + e)]
  }

  lemma PairIsTwoBumps(d: Pairs, k: string, v: int, e: int)
    ensures ViewsOf(BumpPair(d, k, v, e)) == Bump(ViewsOf(d), k, v)
    ensures EngagementOf(BumpPair(d, k, v, e)) == Bump(EngagementOf(d), k, e)
  {}

  /** One more snapshot, chart by chart. */
  lemma OneMore(chart: Chart, snapshots: seq<Snapshot>, i: nat)
    requires i < |snapshots|
    ensures var s := snapshots[i];
      var before, after := Filled(chart, snapshots[..i]), Filled(chart, snapshots[..i + 1]);
      after == if KeyOf(chart, s).Some? then Bump(before, KeyOf(chart, s).value, ValueOf(chart, s)) else before
  {
    assert snapshots[..i + 1][..i] == snapshots[..i];
  }

  /** The ten dictionaries of the source. */
  datatype Charts = Charts(
    byDate: Buckets, byPlatform: Buckets, byAccount: Buckets, byFormat: Buckets, byTopic: Buckets, hooks: Buckets,
    hours: Buckets, brands: Buckets, follows: Buckets, compared: Pairs)

  predicate Plain(c: Charts, snapshots: seq<Snapshot>) {
    && c.byDate == Filled(ByDate, snapshots) && c.byPlatform == Filled(ByPlatform, snapshots)
    && c.byAccount == Filled(ByAccount, snapshots) && c.byFormat == Filled(ByFormat, snapshots)
  }

  predicate FromPayload(c: Charts, snapshots: seq<Snapshot>) {
    && c.hooks == Filled(ByHook, snapshots) && c.hours == Filled(ByHour, snapshots)
    && c.brands == Filled(ByBrand, snapshots)
  }

  predicate ByTopics(c: Charts, snapshots: seq<Snapshot>) {
    c.byTopic == Filled(ByTopic, snapshots) && c.follows == Filled(TopicFollows, snapshots)
  }

  predicate Compared(c: Charts, snapshots: seq<Snapshot>) {
    && ViewsOf(c.compared) == Filled(ComparedViews, snapshots)
    && EngagementOf(c.compared) == Filled(ComparedEngagement, snapshots)
  }

  /** The body of the loop. */
  function Added(c: Charts, s: Snapshot): Charts {
    Charts(
      Bump(c.byDate, s.date, s.views),
      Bump(c.byPlatform, s.platform, s.views),
      Bump(c.byAccount, AccountKey(s), s.views),
      Bump(c.byFormat, s.format, s.views),
      if s.topic != "" then Bump(c.byTopic, s.topic, s.views) else c.byTopic,
      Bump(c.hooks, FirstLabel(s.raw, "hook", "hook_label", "default"), s.views),
      Bump(c.hours, FirstLabel(s.raw, "publish_hour", "publish_hour", "unknown"), s.views),
      Bump(c.brands, FirstLabel(s.raw, "brand", "brand_profile", "default"), s.views),
      if s.topic != "" then Bump(c.follows, s.topic, s.follows) else c.follows,
      BumpPair(c.compared, s.platform, s.views, s.likes + s.comments + s.shares))
  }

  lemma PlainGrows(c: Charts, snapshots: seq<Snapshot>, i: nat)
    requires i < |snapshots| && Plain(c, snapshots[..i])
    ensures Plain(Added(c, snapshots[i]), snapshots[..i + 1])
  {
    hide FirstLabel, AccountKey, Filled, Bump, BumpPair;
    OneMore(ByDate, snapshots, i);
    OneMore(ByPlatform, snapshots, i);
    OneMore(ByAccount, snapshots, i);
    OneMore(ByFormat, snapshots, i);
  }

  lemma PayloadGrows(c: Charts, snapshots: seq<Snapshot>, i: nat)
    requires i < |snapshots| && FromPayload(c, snapshots[..i])
    ensures FromPayload(Added(c, snapshots[i]), snapshots[..i + 1])
  {
    hide FirstLabel, AccountKey, Filled, Bump, BumpPair;
    OneMore(ByHook, snapshots, i);
    OneMore(ByHour, snapshots, i);
    OneMore(ByBrand, snapshots, i);
  }

  lemma TopicsGrow(c: Charts, snapshots: seq<Snapshot>, i: nat)
    requires i < |snapshots| && ByTopics(c, snapshots[..i])
    ensures ByTopics(Added(c, snapshots[i]), snapshots[..i + 1])
  {
    hide FirstLabel, AccountKey, Filled, Bump, BumpPair;
    OneMore(ByTopic, snapshots, i);
    OneMore(TopicFollows, snapshots, i);
  }

  lemma ComparedGrows(c: Charts, snapshots: seq<Snapshot>, i: nat)
    requires i < |snapshots| && Compared(c, snapshots[..i])
    ensures Compared(Added(c, snapshots[i]), snapshots[..i + 1])
  {
    hide FirstLabel, AccountKey, Filled, Bump, BumpPair, ViewsOf, EngagementOf;
    var s := snapshots[i];
    OneMore(ComparedViews, snapshots, i);
    OneMore(ComparedEngagement, snapshots, i);
    PairIsTwoBumps(c.compared, s.platform, s.views, s.likes + s.comments + s.shares);
  }

  /** One pass over the snapshots fills every dictionary as its chart is defined. */
  method AggregateSnapshotCharts(snapshots: seq<Snapshot>) returns (c: Charts)
    ensures c.byDate == Filled(ByDate, snapshots) && c.byPlatform == Filled(ByPlatform, snapshots)
    ensures c.byAccount == Filled(ByAccount, snapshots) && c.byFormat == Filled(ByFormat, snapshots)
    ensures c.hooks == Filled(ByHook, snapshots) && c.hours == Filled(ByHour, snapshots)
    ensures c.brands == Filled(ByBrand, snapshots)
    ensures c.byTopic == Filled(ByTopic, snapshots) && c.follows == Filled(TopicFollows, snapshots)
    ensures ViewsOf(c.compared) == Filled(ComparedViews, snapshots)
    ensures EngagementOf(c.compared) == Filled(ComparedEngagement, snapshots)
  {
    hide Added, Plain, FromPayload, ByTopics, Compared;
    c := Charts(map[], map[], map[], map[], map[], map[], map[], map[], map[], map[]);
    NothingYet(c);
    for i := 0 to |snapshots|
      invariant Plain(c, snapshots[..i]) && FromPayload(c, snapshots[..i])
      invariant ByTopics(c, snapshots[..i]) && Compared(c, snapshots[..i])
    {
      PlainGrows(c, snapshots, i);
      PayloadGrows(c, snapshots, i);
      TopicsGrow(c, snapshots, i);
      ComparedGrows(c, snapshots, i);
      c := Added(c, snapshots[i]);
    }
    assert snapshots[..|snapshots|] == snapshots;
    AllTen(c, snapshots);
  }

  lemma AllTen(c: Charts, snapshots: seq<Snapshot>)
    requires Plain(c, snapshots) && FromPayload(c, snapshots) && ByTopics(c, snapshots) && Compared(c, snapshots)
    ensures c.byDate == Filled(ByDate, snapshots) && c.byPlatform == Filled(ByPlatform, snapshots)
    ensures c.byAccount == Filled(ByAccount, snapshots) && c.byFormat == Filled(ByFormat, snapshots)
    ensures c.hooks == Filled(ByHook, snapshots) && c.hours == Filled(ByHour, snapshots)
    ensures c.brands == Filled(ByBrand, snapshots)
    ensures c.byTopic == Filled(ByTopic, snapshots) && c.follows == Filled(TopicFollows, snapshots)
    ensures ViewsOf(c.compared) == Filled(ComparedViews, snapshots)
    ensures EngagementOf(c.compared) == Filled(ComparedEngagement, snapshots)
  {}

  lemma NothingYet(c: Charts)
    requires c == Charts(map[], map[], map[], map[], map[], map[], map[], map[], map[], map[])
    ensures Plain(c, []) && FromPayload(c, []) && ByTopics(c, []) && Compared(c, [])
  {}
}
