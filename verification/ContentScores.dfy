/** The components of the content opportunity in closed form: what a game is worth, counted from what it holds. */
module ContentScores {
  import opened Wrappers
  import opened ContentOpportunity

  /** How many of the patterns are among these. */
  function CountIn(patterns: seq<Pattern>, kinds: set<Pattern>): nat {
    if |patterns| == 0 then 0
    else CountIn(patterns[..|patterns| - 1], kinds) + if patterns[|patterns| - 1] in kinds then 1 else 0
  }

  /** Counted so, the order of the patterns plays no part. */
  lemma {:induction false} CountInIsSize(patterns: seq<Pattern>, p: Pattern)
    ensures CountIn(patterns, {p}) == multiset(patterns)[p]
  {
    if |patterns| > 0 {
      var n := |patterns| - 1;
      CountInIsSize(patterns[..n], p);
      assert patterns == patterns[..n] + [patterns[n]];
    }
  }

  const MATES := {BackRankMate, SmotheredMate}
  const TWOS := {Pin, BishopSacrifice, KnightSacrifice, Promotion}
  const THREES :=
    {Fork, Skewer, DiscoveredAttack, DoubleAttack, RookSacrifice, ExchangeSacrifice, Underpromotion}
  const SHARP := {Fork, Pin, Skewer, DiscoveredAttack, DoubleAttack, SmotheredMate}

  lemma BonusOfOne(p: Pattern)
    ensures Bonus(p) ==
      1 + (if p in TWOS then 1 else 0) + (if p in THREES then 2 else 0) + (if p == QueenSacrifice then 3 else 0)
      + (if p in MATES then 4 else 0)
    ensures Sharp(p) == if p in SHARP then 1 else 0
  {}

  /** Every pattern counts one point, the named ones more: two, three, four for a queen and five for a mate. */
  lemma {:induction false} BonusInCounts(patterns: seq<Pattern>)
    ensures Weigh(Bonus, patterns) ==
      |patterns| + CountIn(patterns, TWOS) + 2 * CountIn(patterns, THREES) + 3 * CountIn(patterns, {QueenSacrifice})
      + 4 * CountIn(patterns, MATES)
    ensures Weigh(Sharp, patterns) == CountIn(patterns, SHARP)
  {
    hide Bonus, Sharp;
    if |patterns| > 0 {
      var n := |patterns| - 1;
      BonusInCounts(patterns[..n]);
      BonusOfOne(patterns[n]);
      assert patterns[n] in {QueenSacrifice} <==> patterns[n] == QueenSacrifice;
    }
  }

  function AtMost(cap: nat, points: nat): nat {
    if points > cap then cap else points
  }

  /** The points of a label that occurs so often. */
  function Times(moments: seq<Moment>, m: Moment, limit: nat, weight: nat): nat {
    AtMost(limit, multiset(moments)[m] * weight)
  }

  lemma SumOfCounted(moments: seq<Moment>, m: Moment, limit: nat, weight: nat)
    ensures Sum(Counted(moments, m, limit, weight)) == Times(moments, m, limit, weight)
  {
    var n := multiset(moments)[m];
    SumOne(n > 0, Min(limit, n * weight));
  }

  lemma NoLabels(moments: seq<Moment>, limit: nat)
    ensures Sum(LabelReasons(moments, [], limit)) == 0
  {}

  /** One more label in the list. */
  lemma OneLabel(moments: seq<Moment>, labels: seq<(Moment, nat)>, limit: nat)
    requires |labels| > 0
    ensures var n := |labels| - 1;
      Sum(LabelReasons(moments, labels, limit)) ==
        Sum(LabelReasons(moments, labels[..n], limit)) + Times(moments, labels[n].0, limit, labels[n].1)
  {
    hide Sum, Counted, Times;
    var n := |labels| - 1;
    SumSplits(LabelReasons(moments, labels[..n], limit), Counted(moments, labels[n].0, limit, labels[n].1));
    SumOfCounted(moments, labels[n].0, limit, labels[n].1);
  }

  lemma MistakesInCounts(moments: seq<Moment>)
    ensures Sum(LabelReasons(moments, MISTAKES, 6)) ==
      Times(moments, Blunder, 6, 2) + Times(moments, Mistake, 6, 2) + Times(moments, MissedWin, 6, 2)
  {
    hide Sum, LabelReasons, Times;
    assert MISTAKES[..2][..1] == MISTAKES[..1] && MISTAKES[..1][..0] == [];
    OneLabel(moments, MISTAKES, 6);
    OneLabel(moments, MISTAKES[..2], 6);
    OneLabel(moments, MISTAKES[..1], 6);
    NoLabels(moments, 6);
  }

  lemma SwingsInCounts(moments: seq<Moment>)
    ensures Sum(LabelReasons(moments, SWINGS, 12)) ==
      Times(moments, LargeEvaluationSwing, 12, 4) + Times(moments, TurningPoint, 12, 4)
      + Times(moments, ForcedMate, 12, 5) + Times(moments, MateThreat, 12, 3) + Times(moments, Sacrifice, 12, 3)
  {
    hide Sum, LabelReasons, Times;
    assert SWINGS[..4][..3] == SWINGS[..3] && SWINGS[..3][..2] == SWINGS[..2] && SWINGS[..2][..1] == SWINGS[..1];
    assert SWINGS[..1][..0] == [];
    OneLabel(moments, SWINGS, 12);
    OneLabel(moments, SWINGS[..4], 12);
    OneLabel(moments, SWINGS[..3], 12);
    OneLabel(moments, SWINGS[..2], 12);
    OneLabel(moments, SWINGS[..1], 12);
    NoLabels(moments, 12);
  }

  /** Main result for tactics: 18 at most, from the patterns by kind and the mistakes by number. */
  lemma TacticalInCounts(g: Game)
    ensures Value(g, Tactical) == AtMost(18,
      |g.patterns| + CountIn(g.patterns, TWOS) + 2 * CountIn(g.patterns, THREES)
      + 3 * CountIn(g.patterns, {QueenSacrifice}) + 4 * CountIn(g.patterns, MATES)
      + Times(g.moments, Blunder, 6, 2) + Times(g.moments, Mistake, 6, 2) + Times(g.moments, MissedWin, 6, 2))
  {
    hide Sum, PatternPoints, LabelReasons, Times, CountIn, Weigh;
    SumSplits(PatternPoints(g.patterns), MistakeReasons(g));
    PointsAreWeights(g.patterns);
    BonusInCounts(g.patterns);
    MistakesInCounts(g.moments);
  }

  /** Swings: 16 at most, and 12 for each kind. */
  lemma SwingInCounts(g: Game)
    ensures Value(g, EvalSwing) == AtMost(16,
      Times(g.moments, LargeEvaluationSwing, 12, 4) + Times(g.moments, TurningPoint, 12, 4)
      + Times(g.moments, ForcedMate, 12, 5) + Times(g.moments, MateThreat, 12, 3) + Times(g.moments, Sacrifice, 12, 3))
  {
    hide Sum, LabelReasons, Times;
    SwingsInCounts(g.moments);
  }

  /** A mate among the moments or the patterns. */
  predicate HasMate(g: Game) {
    ForcedMate in g.moments || BackRankMate in g.patterns || SmotheredMate in g.patterns
  }

  function Shortness(moveCount: int): nat {
    if 4 <= moveCount <= 40 then 3 else if moveCount <= 60 then 1 else 0
  }

  /** Puzzles: sharp patterns, a mate, and a short game. */
  lemma PuzzleInCounts(g: Game)
    ensures Value(g, Puzzle) ==
      AtMost(15, AtMost(8, 2 * CountIn(g.patterns, SHARP)) + (if HasMate(g) then 4 else 0) + Shortness(g.moveCount))
  {
    hide Sum, Weigh, When;
    BonusInCounts(g.patterns);
    var sharp := Weigh(Sharp, g.patterns);
    var first, second := When(sharp > 0, Min(8, sharp * 2)), When(MateMotif(g), 4);
    SumOne(sharp > 0, Min(8, sharp * 2));
    SumOne(MateMotif(g), 4);
    SumOne(g.moveCount <= 60, 1);
    SumOne(true, 3);
    WhenTrue(3);
    SumSplits(first, second);
    SumSplits(first + second, if 4 <= g.moveCount <= 40 then [3] else When(g.moveCount <= 60, 1));
  }

  /** Video: the length of the game, a famous name, an opening, and anything to show. */
  lemma VideoInFields(g: Game)
    ensures Value(g, Video) == AtMost(15,
      (if 12 <= g.moveCount <= 80 then 8 else if 8 <= g.moveCount <= 120 then 4 else 0)
      + (if g.famous || g.titled then 4 else 0) + (if g.labelled then 2 else 0)
      + (if g.moments != [] || g.patterns != [] then 3 else 0))
  {
    hide Sum, VideoReasons;
    VideoSplits(g);
  }

  /** A famous game, its title and its tags. */
  lemma HistoricalInFields(g: Game)
    ensures Value(g, Historical) == AtMost(20,
      (if g.famous then 14 else 0) + (if g.titled then 4 else 0)
      + (if g.tags == 0 then 0 else if g.tags == 1 then 2 else 4))
  {
    hide Sum, When;
    SumOne(g.famous, 14);
    SumOne(g.titled, 4);
    SumOne(g.tags > 0, Min(4, g.tags * 2));
    SumSplits(When(g.famous, 14), When(g.titled, 4));
    SumSplits(When(g.famous, 14) + When(g.titled, 4), When(g.tags > 0, Min(4, g.tags * 2)));
  }

  /** What a player's rating is worth. */
  function Standing(rating: Option<int>): nat {
    match rating
    case None => 0
    case Some(r) => if r < 2300 then 0 else if r < 2500 then 1 else if r < 2700 then 3 else 5
  }

  lemma FameInFields(g: Game)
    ensures Value(g, PlayerFame) == Standing(g.white) + Standing(g.black)
  {
    hide Sum, When;
    var white, black := RatingPoints(g.white), RatingPoints(g.black);
    SumOne(white > 0, white);
    SumOne(black > 0, black);
    SumSplits(When(white > 0, white), When(black > 0, black));
  }

  /** The anniversary is worth six points, and the month of it two. */
  lemma DateInFields(g: Game)
    ensures Value(g, DateRelevance) ==
      if g.date == Some(g.today) then 6 else if g.date.Some? && g.date.value.0 == g.today.0 then 2 else 0
  {
    hide Sum, When;
    SumOne(true, 6);
    WhenTrue(6);
    SumOne(g.date.Some? && g.date.value.0 == g.today.0, 2);
  }
}
