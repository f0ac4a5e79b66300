/** `compute_content_opportunity`: seven capped components, each explained by the points of its reasons. */
module ContentOpportunity {
  import opened Wrappers

  datatype Pattern =
    | Fork | Pin | Skewer | DiscoveredAttack | DoubleAttack | BackRankMate | SmotheredMate | QueenSacrifice
    | RookSacrifice | ExchangeSacrifice | BishopSacrifice | KnightSacrifice | Promotion | Underpromotion
    | OtherPattern(name: string)

  datatype Moment =
    | Blunder | Mistake | MissedWin | LargeEvaluationSwing | TurningPoint | ForcedMate | MateThreat | Sacrifice
    | OtherMoment(name: string)

  /** The inputs.  `titled` and `labelled` say whether the famous title, and the opening or ECO code, are
      non-empty; dates are month and day. */
  datatype Game = Game(
    famous: bool, titled: bool, tags: nat, white: Option<int>, black: Option<int>, labelled: bool, moveCount: int,
    date: Option<(int, int)>, today: (int, int), moments: seq<Moment>, patterns: seq<Pattern>)

  datatype Component = Historical | PlayerFame | Tactical | EvalSwing | Puzzle | Video | DateRelevance

  function Cap(c: Component): nat {
    match c
    case Historical => 20
    case PlayerFame => 10
    case Tactical => 18
    case EvalSwing => 16
    case Puzzle => 15
    case Video => 15
    case DateRelevance => 6
  }

  function Bonus(p: Pattern): (b: nat)
    ensures b >= 1
  {
    match p
    case BackRankMate => 5
    case SmotheredMate => 5
    case QueenSacrifice => 4
    case Pin => 2
    case BishopSacrifice => 2
    case KnightSacrifice => 2
    case Promotion => 2
    case OtherPattern(_) => 1
    case _ => 3
  }

  function Sharp(p: Pattern): nat {
    if p == Fork || p == Pin || p == Skewer || p == DiscoveredAttack || p == DoubleAttack || p == SmotheredMate then 1
    else 0
  }

  // ---- The reasons, as the points each adds ----

  function When(holds: bool, points: nat): seq<nat> {
    if holds then [points] else []
  }

  /** `add = min(limit, n * weight)` for a label that occurs `n` times. */
  function Counted(moments: seq<Moment>, m: Moment, limit: nat, weight: nat): seq<nat> {
    var n := multiset(moments)[m];
    When(n > 0, Min(limit, n * weight))
  }

  function RatingPoints(rating: Option<int>): nat {
    if rating.None? then 0
    else if rating.value >= 2700 then 5
    else if rating.value >= 2500 then 3
    else if rating.value >= 2300 then 1
    else 0
  }

  function PatternPoints(patterns: seq<Pattern>): seq<nat> {
    if |patterns| == 0 then [] else PatternPoints(patterns[..|patterns| - 1]) + [Bonus(patterns[|patterns| - 1])]
  }

  function Weigh(w: Pattern -> nat, patterns: seq<Pattern>): nat {
    if |patterns| == 0 then 0 else Weigh(w, patterns[..|patterns| - 1]) + w(patterns[|patterns| - 1])
  }

  function HistoricalReasons(g: Game): seq<nat> {
    When(g.famous, 14) + When(g.titled, 4) + When(g.tags > 0, Min(4, g.tags * 2))
  }

  function FameReasons(g: Game): seq<nat> {
    When(RatingPoints(g.white) > 0, RatingPoints(g.white)) + When(RatingPoints(g.black) > 0, RatingPoints(g.black))
  }

  /** The reasons of a list of labels with their weights, each label's points limited. */
  function LabelReasons(moments: seq<Moment>, labels: seq<(Moment, nat)>, limit: nat): seq<nat> {
    if |labels| == 0 then []
    else
      var (moment, weight) := labels[|labels| - 1];
      LabelReasons(moments, labels[..|labels| - 1], limit) + Counted(moments, moment, limit, weight)
  }

  const MISTAKES: seq<(Moment, nat)> := [(Blunder, 2), (Mistake, 2), (MissedWin, 2)]

  const SWINGS: seq<(Moment, nat)> :=
    [(LargeEvaluationSwing, 4), (TurningPoint, 4), (ForcedMate, 5), (MateThreat, 3), (Sacrifice, 3)]

  function MistakeReasons(g: Game): seq<nat> {
    LabelReasons(g.moments, MISTAKES, 6)
  }

  function SwingReasons(g: Game): seq<nat> {
    LabelReasons(g.moments, SWINGS, 12)
  }

  predicate MateMotif(g: Game) {
    ForcedMate in g.moments || BackRankMate in g.patterns || SmotheredMate in g.patterns
  }

  function PuzzleReasons(g: Game): seq<nat> {
    var sharp := Weigh(Sharp, g.patterns);
    When(sharp > 0, Min(8, sharp * 2)) + When(MateMotif(g), 4)
    + if 4 <= g.moveCount <= 40 then [3] else When(g.moveCount <= 60, 1)
  }

  function LengthReasons(moveCount: int): seq<nat> {
    if 12 <= moveCount <= 80 then [8] else When(8 <= moveCount <= 120, 4)
  }

  function VideoReasons(g: Game): seq<nat> {
    LengthReasons(g.moveCount) + When(g.famous || g.titled, 4) + When(g.labelled, 2) + When(|g.moments| > 0 || |g.patterns| > 0, 3)
  }

  function DateReasons(g: Game): seq<nat> {
    if g.date == Some(g.today) then [6] else When(g.date.Some? && g.date.value.0 == g.today.0, 2)
  }

  function Reasons(g: Game, c: Component): seq<nat> {
    match c
    case Historical => HistoricalReasons(g)
    case PlayerFame => FameReasons(g)
    case Tactical => PatternPoints(g.patterns) + MistakeReasons(g)
    case EvalSwing => SwingReasons(g)
    case Puzzle => PuzzleReasons(g)
    case Video => VideoReasons(g)
    case DateRelevance => DateReasons(g)
  }

  function Sum(points: seq<nat>): nat {
    if |points| == 0 then 0 else Sum(points[..|points| - 1]) + points[|points| - 1]
  }

  /** A component is the sum of its reasons, capped. */
  function Value(g: Game, c: Component): nat {
    Min(Cap(c), Sum(Reasons(g, c)))
  }

  function Score(g: Game): nat {
    Value(g, Historical) + Value(g, PlayerFame) + Value(g, Tactical) + Value(g, EvalSwing) + Value(g, Puzzle)
    + Value(g, Video) + Value(g, DateRelevance)
  }

  lemma {:induction false} SumSplits(a: seq<nat>, b: seq<nat>)
    ensures Sum(a + b) == Sum(a) + Sum(b)
  {
    if |b| == 0 {
      assert a + b == a;
    } else {
      assert (a + b)[..|a + b| - 1] == a + b[..|b| - 1];
      SumSplits(a, b[..|b| - 1]);
    }
  }

  // ---- Caps and explanations ----

  /** The score is between 0 and 100. */
  lemma ScoreIsCapped(g: Game)
    ensures Score(g) <= 100 && forall c :: Value(g, c) <= Cap(c)
  {
    hide Sum, Reasons;
  }

  lemma {:induction false} PositiveSum(points: seq<nat>)
    requires forall i :: 0 <= i < |points| ==> points[i] > 0
    ensures Sum(points) > 0 <==> |points| > 0
  {
    if |points| > 0 { assert points[|points| - 1] > 0; }
  }

  lemma {:induction false} BonusesArePositive(patterns: seq<Pattern>)
    ensures forall i :: 0 <= i < |PatternPoints(patterns)| ==> PatternPoints(patterns)[i] > 0
  {
    hide Bonus;
    if |patterns| > 0 { BonusesArePositive(patterns[..|patterns| - 1]); }
  }

  predicate Positive(points: seq<nat>) {
    forall i :: 0 <= i < |points| ==> points[i] > 0
  }

  lemma CountedIsPositive(moments: seq<Moment>, m: Moment, limit: nat, weight: nat)
    requires limit > 0 && weight > 0
    ensures Positive(Counted(moments, m, limit, weight))
  {
    var n := multiset(moments)[m];
    if n > 0 { assert n * weight > 0; }
  }

  lemma {:induction false} LabelsArePositive(moments: seq<Moment>, labels: seq<(Moment, nat)>, limit: nat)
    requires limit > 0 && forall i :: 0 <= i < |labels| ==> labels[i].1 > 0
    ensures Positive(LabelReasons(moments, labels, limit))
  {
    hide Counted;
    if |labels| > 0 {
      var n := |labels| - 1;
      LabelsArePositive(moments, labels[..n], limit);
      CountedIsPositive(moments, labels[n].0, limit, labels[n].1);
    }
  }

  lemma WhenIsPositive(holds: bool, points: nat)
    requires holds ==> points > 0
    ensures Positive(When(holds, points))
  {}

  lemma BothPositive(a: seq<nat>, b: seq<nat>)
    requires Positive(a) && Positive(b)
    ensures Positive(a + b)
  {}

  lemma OthersArePositive(g: Game)
    ensures Positive(HistoricalReasons(g)) && Positive(FameReasons(g)) && Positive(PuzzleReasons(g))
    ensures Positive(DateReasons(g))
  {
    hide Weigh, RatingPoints, MateMotif, When, Positive;
    WhenIsPositive(g.famous, 14);
    WhenIsPositive(g.titled, 4);
    WhenIsPositive(g.tags > 0, Min(4, g.tags * 2));
    BothPositive(When(g.famous, 14), When(g.titled, 4));
    BothPositive(When(g.famous, 14) + When(g.titled, 4), When(g.tags > 0, Min(4, g.tags * 2)));
    var white, black := RatingPoints(g.white), RatingPoints(g.black);
    WhenIsPositive(white > 0, white);
    WhenIsPositive(black > 0, black);
    BothPositive(When(white > 0, white), When(black > 0, black));
    var sharp := Weigh(Sharp, g.patterns);
    var length := if 4 <= g.moveCount <= 40 then [3] else When(g.moveCount <= 60, 1);
    WhenIsPositive(sharp > 0, Min(8, sharp * 2));
    WhenIsPositive(MateMotif(g), 4);
    WhenIsPositive(g.moveCount <= 60, 1);
    OneIsPositive(3);
    BothPositive(When(sharp > 0, Min(8, sharp * 2)), When(MateMotif(g), 4));
    BothPositive(When(sharp > 0, Min(8, sharp * 2)) + When(MateMotif(g), 4), length);
    WhenIsPositive(g.date.Some? && g.date.value.0 == g.today.0, 2);
    OneIsPositive(6);
  }

  lemma OneIsPositive(points: nat)
    requires points > 0
    ensures Positive([points])
  {}

  lemma VideoIsPositive(g: Game)
    ensures Positive(VideoReasons(g))
  {
    hide When, Positive;
    var length := if 12 <= g.moveCount <= 80 then [8] else When(8 <= g.moveCount <= 120, 4);
    var famous, labelled := When(g.famous || g.titled, 4), When(g.labelled, 2);
    OneIsPositive(8);
    WhenIsPositive(8 <= g.moveCount <= 120, 4);
    WhenIsPositive(g.famous || g.titled, 4);
    WhenIsPositive(g.labelled, 2);
    WhenIsPositive(|g.moments| > 0 || |g.patterns| > 0, 3);
    BothPositive(length, famous);
    BothPositive(length + famous, labelled);
    BothPositive(length + famous + labelled, When(|g.moments| > 0 || |g.patterns| > 0, 3));
  }

  lemma ReasonsArePositive(g: Game, c: Component)
    ensures Positive(Reasons(g, c))
  {
    hide HistoricalReasons, FameReasons, PuzzleReasons, VideoReasons, DateReasons, PatternPoints, LabelReasons;
    BonusesArePositive(g.patterns);
    LabelsArePositive(g.moments, MISTAKES, 6);
    LabelsArePositive(g.moments, SWINGS, 12);
    OthersArePositive(g);
    VideoIsPositive(g);
  }

  /** A component is non-zero exactly when it carries a reason. */
  lemma NonZeroIsExplained(g: Game, c: Component)
    ensures Value(g, c) > 0 <==> Reasons(g, c) != []
  {
    hide Reasons, Sum;
    ReasonsArePositive(g, c);
    PositiveSum(Reasons(g, c));
  }

  // ---- Order and growth ----

  /** `b` has every pattern, moment and tag of `a`, ratings no lower, and the same game otherwise. */
  predicate Grows(a: Game, b: Game) {
    && multiset(a.patterns) <= multiset(b.patterns) && multiset(a.moments) <= multiset(b.moments)
    && a.tags <= b.tags && RatingGrows(a.white, b.white) && RatingGrows(a.black, b.black)
    && (a.famous ==> b.famous) && (a.titled ==> b.titled) && (a.labelled ==> b.labelled)
    && a.moveCount == b.moveCount && a.date == b.date && a.today == b.today
  }

  predicate RatingGrows(a: Option<int>, b: Option<int>) {
    a.Some? ==> b.Some? && a.value <= b.value
  }

  lemma {:induction false} WeighWithout(w: Pattern -> nat, patterns: seq<Pattern>, i: nat)
    requires i < |patterns|
    ensures Weigh(w, patterns) == Weigh(w, Without(patterns, i)) + w(patterns[i])
  {
    var last := |patterns| - 1;
    var rest := patterns[..i] + patterns[i + 1..];
    if i == last {
      assert rest == patterns[..last];
    } else {
      WeighWithout(w, patterns[..last], i);
      assert rest[..last - 1] == patterns[..last][..i] + patterns[..last][i + 1..];
      assert rest[last - 1] == patterns[last];
    }
  }

  /** More patterns, in any order, weigh no less. */
  lemma {:induction false} WeighGrows(w: Pattern -> nat, a: seq<Pattern>, b: seq<Pattern>)
    requires multiset(a) <= multiset(b)
    ensures Weigh(w, a) <= Weigh(w, b)
  {
    if |a| > 0 {
      var last := |a| - 1;
      assert a == a[..last] + [a[last]];
      assert a[last] in multiset(a) && a[last] in multiset(b);
      var i :| 0 <= i < |b| && b[i] == a[last];
      DropOne(b, i);
      assert multiset(a[..last]) == multiset(a) - multiset{a[last]};
      WeighGrows(w, a[..last], Without(b, i));
      WeighWithout(w, b, i);
    }
  }

  lemma {:induction false} PointsAreWeights(patterns: seq<Pattern>)
    ensures Sum(PatternPoints(patterns)) == Weigh(Bonus, patterns)
  {
    if |patterns| > 0 {
      var n := |patterns| - 1;
      PointsAreWeights(patterns[..n]);
      assert PatternPoints(patterns)[..|PatternPoints(patterns)| - 1] == PatternPoints(patterns[..n]);
    }
  }

  lemma SumOne(holds: bool, points: nat)
    ensures Sum(When(holds, points)) == if holds then points else 0
  {
    if holds { assert [points][..0] == []; }
  }

  lemma ProductGrows(i: nat, j: nat, weight: nat)
    requires i <= j
    ensures i * weight <= j * weight
  {}

  lemma CountedGrows(a: Game, b: Game, m: Moment, limit: nat, weight: nat)
    requires Grows(a, b)
    ensures Sum(Counted(a.moments, m, limit, weight)) <= Sum(Counted(b.moments, m, limit, weight))
  {
    hide Sum, When;
    var i, j := multiset(a.moments)[m], multiset(b.moments)[m];
    ProductGrows(i, j, weight);
    WhenGrows(i > 0, Min(limit, i * weight), j > 0, Min(limit, j * weight));
  }

  /** Sums of lists put together grow with their parts. */
  lemma SumsGrow(a: seq<nat>, b: seq<nat>, a': seq<nat>, b': seq<nat>)
    requires Sum(a) <= Sum(a') && Sum(b) <= Sum(b')
    ensures Sum(a + b) <= Sum(a' + b')
  {
    SumSplits(a, b);
    SumSplits(a', b');
  }

  lemma WhenGrows(p: bool, m: nat, q: bool, n: nat)
    requires p ==> q && m <= n
    ensures Sum(When(p, m)) <= Sum(When(q, n))
  {
    SumOne(p, m);
    SumOne(q, n);
  }

  lemma {:induction false} LabelsGrow(a: Game, b: Game, labels: seq<(Moment, nat)>, limit: nat)
    requires Grows(a, b)
    ensures Sum(LabelReasons(a.moments, labels, limit)) <= Sum(LabelReasons(b.moments, labels, limit))
  {
    hide Sum, Counted, Grows;
    if |labels| > 0 {
      var n := |labels| - 1;
      var (moment, weight) := labels[n];
      LabelsGrow(a, b, labels[..n], limit);
      CountedGrows(a, b, moment, limit, weight);
      SumsGrow(LabelReasons(a.moments, labels[..n], limit), Counted(a.moments, moment, limit, weight),
               LabelReasons(b.moments, labels[..n], limit), Counted(b.moments, moment, limit, weight));
    }
  }

  lemma HistoricalGrows(a: Game, b: Game)
    requires Grows(a, b)
    ensures Sum(HistoricalReasons(a)) <= Sum(HistoricalReasons(b))
  {
    hide Sum, When;
    WhenGrows(a.famous, 14, b.famous, 14);
    WhenGrows(a.titled, 4, b.titled, 4);
    WhenGrows(a.tags > 0, Min(4, a.tags * 2), b.tags > 0, Min(4, b.tags * 2));
    SumsGrow(When(a.famous, 14), When(a.titled, 4), When(b.famous, 14), When(b.titled, 4));
    SumsGrow(When(a.famous, 14) + When(a.titled, 4), When(a.tags > 0, Min(4, a.tags * 2)),
             When(b.famous, 14) + When(b.titled, 4), When(b.tags > 0, Min(4, b.tags * 2)));
  }

  lemma FameGrows(a: Game, b: Game)
    requires Grows(a, b)
    ensures Sum(FameReasons(a)) <= Sum(FameReasons(b))
  {
    var i, j, k, l := RatingPoints(a.white), RatingPoints(b.white), RatingPoints(a.black), RatingPoints(b.black);
    assert i <= j && k <= l;
    hide Sum, When, RatingPoints;
    WhenGrows(i > 0, i, j > 0, j);
    WhenGrows(k > 0, k, l > 0, l);
    SumsGrow(When(i > 0, i), When(k > 0, k), When(j > 0, j), When(l > 0, l));
  }

  lemma PuzzleGrows(a: Game, b: Game)
    requires Grows(a, b)
    ensures Sum(PuzzleReasons(a)) <= Sum(PuzzleReasons(b))
  {
    hide Sum, When, Weigh, Sharp;
    WeighGrows(Sharp, a.patterns, b.patterns);
    var i, j := Weigh(Sharp, a.patterns), Weigh(Sharp, b.patterns);
    var length := if 4 <= a.moveCount <= 40 then [3] else When(a.moveCount <= 60, 1);
    MotifGrows(a, b);
    WhenGrows(i > 0, Min(8, i * 2), j > 0, Min(8, j * 2));
    WhenGrows(MateMotif(a), 4, MateMotif(b), 4);
    SumsGrow(When(i > 0, Min(8, i * 2)), When(MateMotif(a), 4), When(j > 0, Min(8, j * 2)), When(MateMotif(b), 4));
    SumsGrow(When(i > 0, Min(8, i * 2)) + When(MateMotif(a), 4), length,
             When(j > 0, Min(8, j * 2)) + When(MateMotif(b), 4), length);
  }

  lemma MotifGrows(a: Game, b: Game)
    requires Grows(a, b)
    ensures MateMotif(a) ==> MateMotif(b)
  {
    if ForcedMate in a.moments { assert multiset(a.moments)[ForcedMate] <= multiset(b.moments)[ForcedMate]; }
    if BackRankMate in a.patterns { assert multiset(a.patterns)[BackRankMate] <= multiset(b.patterns)[BackRankMate]; }
    if SmotheredMate in a.patterns { assert multiset(a.patterns)[SmotheredMate] <= multiset(b.patterns)[SmotheredMate]; }
  }

  lemma NonEmptyGrows<T>(a: seq<T>, b: seq<T>)
    requires multiset(a) <= multiset(b)
    ensures |a| > 0 ==> |b| > 0
  {
    if |a| > 0 { assert a[0] in multiset(a) && a[0] in multiset(b); }
  }

  lemma VideoGrows(a: Game, b: Game)
    requires Grows(a, b)
    ensures Sum(VideoReasons(a)) <= Sum(VideoReasons(b))
  {
    NonEmptyGrows(a.moments, b.moments);
    NonEmptyGrows(a.patterns, b.patterns);
    VideoSplits(a);
    VideoSplits(b);
  }

  predicate Highlights(g: Game) {
    |g.moments| > 0 || |g.patterns| > 0
  }

  lemma VideoSplits(g: Game)
    ensures Sum(VideoReasons(g)) ==
      (if 12 <= g.moveCount <= 80 then 8 else if 8 <= g.moveCount <= 120 then 4 else 0)
      + (if g.famous || g.titled then 4 else 0) + (if g.labelled then 2 else 0) + (if Highlights(g) then 3 else 0)
  {
    hide Sum, When;
    var length := if 12 <= g.moveCount <= 80 then [8] else When(8 <= g.moveCount <= 120, 4);
    var famous, labelled := When(g.famous || g.titled, 4), When(g.labelled, 2);
    SumOne(8 <= g.moveCount <= 120, 4);
    SumOne(true, 8);
    assert When(true, 8) == [8] by { WhenTrue(8); }
    SumOne(g.famous || g.titled, 4);
    SumOne(g.labelled, 2);
    SumOne(Highlights(g), 3);
    SumSplits(length, famous);
    SumSplits(length + famous, labelled);
    SumSplits(length + famous + labelled, When(Highlights(g), 3));
  }

  lemma WhenTrue(points: nat)
    ensures When(true, points) == [points]
  {}

  lemma TacticalGrows(a: Game, b: Game)
    requires Grows(a, b)
    ensures Sum(Reasons(a, Tactical)) <= Sum(Reasons(b, Tactical))
  {
    hide Sum, Weigh, PatternPoints, LabelReasons;
    PointsAreWeights(a.patterns);
    PointsAreWeights(b.patterns);
    WeighGrows(Bonus, a.patterns, b.patterns);
    LabelsGrow(a, b, MISTAKES, 6);
    SumsGrow(PatternPoints(a.patterns), MistakeReasons(a), PatternPoints(b.patterns), MistakeReasons(b));
  }

  lemma SwingsGrow(a: Game, b: Game)
    requires Grows(a, b)
    ensures Sum(SwingReasons(a)) <= Sum(SwingReasons(b))
  {
    LabelsGrow(a, b, SWINGS, 12);
  }

  lemma ReasonsGrow(a: Game, b: Game, c: Component)
    requires Grows(a, b)
    ensures Sum(Reasons(a, c)) <= Sum(Reasons(b, c))
  {
    hide Sum, HistoricalReasons, FameReasons, PatternPoints, MistakeReasons, SwingReasons, PuzzleReasons, VideoReasons;
    match c
    case Historical => HistoricalGrows(a, b);
    case PlayerFame => FameGrows(a, b);
    case Tactical => TacticalGrows(a, b);
    case EvalSwing => SwingsGrow(a, b);
    case Puzzle => PuzzleGrows(a, b);
    case Video => VideoGrows(a, b);
    case DateRelevance =>
  }

  /** Main result: no component drops, so the score does not, when patterns, moments or tags are added or a
      rating rises, whatever the order of the lists. */
  lemma ComponentsGrow(a: Game, b: Game, c: Component)
    requires Grows(a, b)
    ensures Value(b, c) >= Value(a, c)
  {
    hide Sum, Reasons, Grows;
    ReasonsGrow(a, b, c);
  }

  lemma ScoreGrows(a: Game, b: Game)
    requires Grows(a, b)
    ensures Score(a) <= Score(b)
  {
    hide Value, Grows;
    ComponentsGrow(a, b, Historical);
    ComponentsGrow(a, b, PlayerFame);
    ComponentsGrow(a, b, Tactical);
    ComponentsGrow(a, b, EvalSwing);
    ComponentsGrow(a, b, Puzzle);
    ComponentsGrow(a, b, Video);
    ComponentsGrow(a, b, DateRelevance);
  }

  /** The order of patterns and of moments does not matter to any component. */
  lemma OrderDoesNotMatter(g: Game, patterns: seq<Pattern>, moments: seq<Moment>, c: Component)
    requires multiset(patterns) == multiset(g.patterns) && multiset(moments) == multiset(g.moments)
    ensures Value(g.(patterns := patterns, moments := moments), c) == Value(g, c)
  {
    hide Value;
    ComponentsGrow(g, g.(patterns := patterns, moments := moments), c);
    ComponentsGrow(g.(patterns := patterns, moments := moments), g, c);
  }

  // ---- The accumulating method ----

  datatype Part = Part(value: nat, reasons: seq<nat>)

  datatype Result = Result(
    score: nat, historical: Part, fame: Part, tactical: Part, swing: Part, puzzle: Part, video: Part, date: Part)

  function PartOf(g: Game, c: Component): Part {
    Part(Value(g, c), Reasons(g, c))
  }

  function Clamp(value: nat, cap: nat): nat {
    if cap < value then cap else value
  }

  /** The pattern loop of the tactical component. */
  method AddPatterns(patterns: seq<Pattern>) returns (points: nat, reasons: seq<nat>)
    ensures reasons == PatternPoints(patterns) && points == Sum(reasons)
  {
    points, reasons := 0, [];
    for i := 0 to |patterns|
      invariant reasons == PatternPoints(patterns[..i]) && points == Sum(reasons)
    {
      var add := Bonus(patterns[i]);
      assert patterns[..i + 1][..i] == patterns[..i] && (reasons + [add])[..|reasons|] == reasons;
      points, reasons := points + add, reasons + [add];
    }
    assert patterns[..|patterns|] == patterns;
  }

  /** One guarded addition of a component. */
  method Add(points: nat, reasons: seq<nat>, holds: bool, add: nat) returns (points': nat, reasons': seq<nat>)
    requires points == Sum(reasons)
    ensures reasons' == reasons + When(holds, add) && points' == Sum(reasons')
  {
    points', reasons' := points, reasons;
    if holds {
      assert (reasons + [add])[..|reasons|] == reasons;
      points', reasons' := points + add, reasons + [add];
    }
  }

  lemma OneMoreLabel(moments: seq<Moment>, labels: seq<(Moment, nat)>, i: nat, limit: nat)
    requires i < |labels|
    ensures LabelReasons(moments, labels[..i + 1], limit) ==
      LabelReasons(moments, labels[..i], limit) + Counted(moments, labels[i].0, limit, labels[i].1)
  {
    hide Counted;
    assert labels[..i + 1][..i] == labels[..i];
  }

  /** The loops over labels: `n * weight` up to `limit` for each label that occurs. */
  method AddLabels(moments: seq<Moment>, labels: seq<(Moment, nat)>, limit: nat) returns (points: nat, reasons: seq<nat>)
    ensures reasons == LabelReasons(moments, labels, limit) && points == Sum(reasons)
  {
    points, reasons := 0, [];
    assert Sum([]) == 0 && LabelReasons(moments, labels[..0], limit) == [];
    hide Sum, When, LabelReasons;
    for i := 0 to |labels|
      invariant reasons == LabelReasons(moments, labels[..i], limit) && points == Sum(reasons)
    {
      OneMoreLabel(moments, labels, i, limit);
      var n := multiset(moments)[labels[i].0];
      points, reasons := Add(points, reasons, n > 0, Min(limit, n * labels[i].1));
    }
    assert labels[..|labels|] == labels;
  }

  method CountSharp(patterns: seq<Pattern>) returns (n: nat)
    ensures n == Weigh(Sharp, patterns)
  {
    n := 0;
    for i := 0 to |patterns|
      invariant n == Weigh(Sharp, patterns[..i])
    {
      assert patterns[..i + 1][..i] == patterns[..i];
      n := n + Sharp(patterns[i]);
    }
    assert patterns[..|patterns|] == patterns;
  }

  /** The tactical component: patterns, then mistakes. */
  method TacticalPoints(g: Game) returns (points: nat, reasons: seq<nat>)
    ensures reasons == Reasons(g, Tactical) && points == Sum(reasons)
  {
    hide Sum, PatternPoints, LabelReasons;
    points, reasons := AddPatterns(g.patterns);
    var more, why := AddLabels(g.moments, MISTAKES, 6);
    SumSplits(reasons, why);
    points, reasons := points + more, reasons + why;
  }

  method SwingPoints(g: Game) returns (points: nat, reasons: seq<nat>)
    ensures reasons == Reasons(g, EvalSwing) && points == Sum(reasons)
  {
    hide Sum, LabelReasons;
    points, reasons := AddLabels(g.moments, SWINGS, 12);
  }

  method PuzzlePoints(g: Game) returns (points: nat, reasons: seq<nat>)
    ensures reasons == Reasons(g, Puzzle) && points == Sum(reasons)
  {
    hide Weigh, Sharp;
    var sharp := CountSharp(g.patterns);
    points, reasons := 0, [];
    points, reasons := Add(points, reasons, sharp > 0, Min(8, sharp * 2));
    points, reasons := Add(points, reasons, MateMotif(g), 4);
    if 4 <= g.moveCount <= 40 {
      points, reasons := Add(points, reasons, true, 3);
    } else {
      points, reasons := Add(points, reasons, g.moveCount <= 60, 1);
    }
  }

  method LengthPoints(moveCount: int) returns (points: nat, reasons: seq<nat>)
    ensures reasons == LengthReasons(moveCount) && points == Sum(reasons)
  {
    points, reasons := 0, [];
    if 12 <= moveCount <= 80 {
      points, reasons := Add(points, reasons, true, 8);
    } else {
      points, reasons := Add(points, reasons, 8 <= moveCount <= 120, 4);
    }
  }

  method VideoPoints(g: Game) returns (points: nat, reasons: seq<nat>)
    ensures reasons == Reasons(g, Video) && points == Sum(reasons)
  {
    hide Sum, When, LengthReasons;
    points, reasons := LengthPoints(g.moveCount);
    points, reasons := Add(points, reasons, g.famous || g.titled, 4);
    points, reasons := Add(points, reasons, g.labelled, 2);
    points, reasons := Add(points, reasons, |g.moments| > 0 || |g.patterns| > 0, 3);
  }

  method HistoricalPoints(g: Game) returns (points: nat, reasons: seq<nat>)
    ensures reasons == Reasons(g, Historical) && points == Sum(reasons)
  {
    points, reasons := 0, [];
    points, reasons := Add(points, reasons, g.famous, 14);
    points, reasons := Add(points, reasons, g.titled, 4);
    points, reasons := Add(points, reasons, g.tags > 0, Min(4, g.tags * 2));
  }

  method FamePoints(g: Game) returns (points: nat, reasons: seq<nat>)
    ensures reasons == Reasons(g, PlayerFame) && points == Sum(reasons)
  {
    points, reasons := 0, [];
    points, reasons := Add(points, reasons, RatingPoints(g.white) > 0, RatingPoints(g.white));
    points, reasons := Add(points, reasons, RatingPoints(g.black) > 0, RatingPoints(g.black));
  }

  method DatePoints(g: Game) returns (points: nat, reasons: seq<nat>)
    ensures reasons == Reasons(g, DateRelevance) && points == Sum(reasons)
  {
    points, reasons := 0, [];
    if g.date == Some(g.today) {
      points, reasons := Add(points, reasons, true, 6);
    } else {
      points, reasons := Add(points, reasons, g.date.Some? && g.date.value.0 == g.today.0, 2);
    }
  }

  /** The whole computation: every component is its capped points with its reasons, and the score is their
      sum. */
  method ComputeContentOpportunity(g: Game) returns (r: Result)
    ensures r == Result(Score(g), PartOf(g, Historical), PartOf(g, PlayerFame), PartOf(g, Tactical),
                        PartOf(g, EvalSwing), PartOf(g, Puzzle), PartOf(g, Video), PartOf(g, DateRelevance))
  {
    hide Sum, Reasons, Value;
    var historical, why1 := HistoricalPoints(g);
    var fame, why2 := FamePoints(g);
    var tactical, why3 := TacticalPoints(g);
    var swing, why4 := SwingPoints(g);
    var puzzle, why5 := PuzzlePoints(g);
    var video, why6 := VideoPoints(g);
    var date, why7 := DatePoints(g);
    historical, fame, tactical := Clamp(historical, 20), Clamp(fame, 10), Clamp(tactical, 18);
    swing, puzzle, video, date := Clamp(swing, 16), Clamp(puzzle, 15), Clamp(video, 15), Clamp(date, 6);
    ValueIsClamped(g);
    r := Result(historical + fame + tactical + swing + puzzle + video + date,
                Part(historical, why1), Part(fame, why2), Part(tactical, why3), Part(swing, why4), Part(puzzle, why5),
                Part(video, why6), Part(date, why7));
  }

  lemma ValueIsClamped(g: Game)
    ensures forall c :: Value(g, c) == Clamp(Sum(Reasons(g, c)), Cap(c))
  {
    hide Sum, Reasons;
  }
}
