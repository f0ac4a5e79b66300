/** Editorial curation of famous games: score every catalog entry against a game, take the first best one,
    write its metadata into the game. */
module FamousCatalog {
  import opened Wrappers
  import opened Text

  const DEFAULT_MIN_SCORE := 70

  datatype Entry = Entry(
    id: string, title: string, white: string, black: string, year: int,
    whiteAliases: seq<string>, blackAliases: seq<string>,
    event: Option<string>, eventAliases: seq<string>,
    tags: seq<string>, significance: string,
    uciPrefix: seq<string>, fingerprint: Option<string>)

  /** A game row.  `uciMoves` is what parsing its PGN yields; an empty string plays no part other than a missing one. */
  datatype Game = Game(
    white: Option<string>, black: Option<string>, event: Option<string>, year: Option<int>,
    fingerprint: string, uciMoves: seq<string>,
    isFamous: bool, famousTitle: Option<string>, tags: seq<string>, meta: map<string, string>)

  function NormalizeName(name: Option<string>): string {
    if Truthy(name) then Strip(Collapse(Lower(name.value), false)) else ""
  }

  // ---- The signals ----

  function Candidates(primary: string, aliases: seq<string>): seq<string> {
    [NormalizeName(Some(primary))] + NormalizeAll(aliases)
  }

  function NormalizeAll(names: seq<string>): seq<string> {
    if |names| == 0 then [] else [NormalizeName(Some(names[0]))] + NormalizeAll(names[1..])
  }

  predicate NameMatches(candidate: string, actual: string) {
    || Contains(actual, candidate)
    || Contains(candidate, actual)
    || (TokenSet(candidate) != {} && TokenSet(candidate) <= TokenSet(actual))
    || (exists t :: t in TokenSet(candidate) && t in TokenSet(actual) && |t| >= 4)
  }

  predicate PlayerMatch(primary: string, aliases: seq<string>, actual: Option<string>) {
    var a := NormalizeName(actual);
    a != "" && exists c :: c in Candidates(primary, aliases) && c != "" && NameMatches(c, a)
  }

  function EventCandidates(e: Entry): seq<string> {
    (if Truthy(e.event) then [NormalizeName(e.event)] else []) + NormalizeAll(e.eventAliases)
  }

  predicate EventMatch(e: Entry, event: Option<string>) {
    var a := NormalizeName(event);
    && a != ""
    && exists c :: c in EventCandidates(e) && c != "" && EventTextMatches(c, a)
  }

  predicate EventTextMatches(candidate: string, actual: string) {
    Contains(actual, candidate) || Contains(candidate, actual) || TokenSet(candidate) * TokenSet(actual) != {}
  }

  predicate UciPrefixMatch(moves: seq<string>, prefix: seq<string>) {
    && prefix != [] && |prefix| <= |moves|
    && forall i :: 0 <= i < |prefix| ==> Lower(moves[i]) == prefix[i]
  }

  predicate ExactFingerprint(e: Entry, g: Game) {
    Truthy(e.fingerprint) && g.fingerprint == e.fingerprint.value
  }

  function Abs(x: int): int {
    if x < 0 then -x else x
  }

  /** The year's contribution, or None when the entry's year rules the game out. */
  function YearPoints(e: Entry, g: Game): Option<int> {
    if e.year == 0 then Some(0)
    else if g.year == Some(e.year) then Some(40)
    else if g.year.Some? && Abs(g.year.value - e.year) <= 1 then Some(15)
    else None
  }

  /** Everything `score_famous_match` looks at. */
  datatype Signals = Signals(exact: bool, year: Option<int>, uci: bool, white: bool, black: bool, event: bool)

  function SignalsOf(e: Entry, g: Game): Signals {
    Signals(ExactFingerprint(e, g), YearPoints(e, g), UciPrefixMatch(g.uciMoves, e.uciPrefix),
            PlayerMatch(e.white, e.whiteAliases, g.white), PlayerMatch(e.black, e.blackAliases, g.black),
            EventMatch(e, g.event))
  }

  /** The score of a set of signals; None when they make no match. */
  function ScoreOf(s: Signals): Option<int> {
    if s.exact then Some(100)
    else if s.year.None? then None
    else
      var score := s.year.value + (if s.uci then 50 else 0) + (if s.white then 25 else 0) + (if s.black then 25 else 0)
                   + (if s.event then 10 else 0);
      if score < DEFAULT_MIN_SCORE then None
      else if !s.uci && !(s.white && s.black && s.year.value == 40) then None
      else Some(score)
  }

  function Score(e: Entry, g: Game): Option<int> {
    ScoreOf(SignalsOf(e, g))
  }

  // ---- The best match ----

  /** The score that takes part in the comparison. */
  function Counted(e: Entry, g: Game, minScore: int): Option<int> {
    var s := Score(e, g);
    if s.Some? && s.value >= minScore then s else None
  }

  /** Entry `b` is the first one with the highest counted score. */
  ghost predicate IsBest(catalog: seq<Entry>, g: Game, minScore: int, b: nat) {
    && b < |catalog| && Counted(catalog[b], g, minScore).Some?
    && (forall r :: 0 <= r < |catalog| && Counted(catalog[r], g, minScore).Some? ==>
          var best := Counted(catalog[b], g, minScore).value;
          var rival := Counted(catalog[r], g, minScore).value;
          rival <= best && (r < b ==> rival < best))
  }

  ghost predicate NoMatch(catalog: seq<Entry>, g: Game, minScore: int) {
    forall r :: 0 <= r < |catalog| ==> Counted(catalog[r], g, minScore).None?
  }

  /** The running best of a list of scores: a later one replaces it only when it is higher. */
  function FirstMax(scores: seq<Option<int>>): (best: Option<nat>)
    ensures best.Some? ==> best.value < |scores| && scores[best.value].Some?
  {
    if |scores| == 0 then None
    else
      var best := FirstMax(scores[..|scores| - 1]);
      var score := scores[|scores| - 1];
      if score.None? || (best.Some? && score.value <= scores[best.value].value) then best else Some(|scores| - 1)
  }

  /** It is the first of the highest scores, and None only when there are none. */
  lemma {:induction false} FirstMaxIsFirst(scores: seq<Option<int>>)
    ensures var best := FirstMax(scores);
      if best.None? then forall r :: 0 <= r < |scores| ==> scores[r].None?
      else forall r :: 0 <= r < |scores| && scores[r].Some? ==>
        scores[r].value <= scores[best.value].value && (r < best.value ==> scores[r].value < scores[best.value].value)
  {
    if |scores| != 0 { FirstMaxIsFirst(scores[..|scores| - 1]); }
  }

  function Scores(catalog: seq<Entry>, g: Game, minScore: int): seq<Option<int>> {
    seq(|catalog|, i requires 0 <= i < |catalog| => Counted(catalog[i], g, minScore))
  }

  function Best(catalog: seq<Entry>, g: Game, minScore: int): (best: Option<nat>)
    ensures best.Some? ==> best.value < |catalog|
  {
    FirstMax(Scores(catalog, g, minScore))
  }

  ghost predicate IsFirstMax(scores: seq<Option<int>>, b: nat) {
    && b < |scores| && scores[b].Some?
    && forall r :: 0 <= r < |scores| && scores[r].Some? ==>
         scores[r].value <= scores[b].value && (r < b ==> scores[r].value < scores[b].value)
  }

  lemma FirstMaxExactly(scores: seq<Option<int>>, b: nat)
    ensures IsFirstMax(scores, b) <==> FirstMax(scores) == Some(b)
    ensures FirstMax(scores) == None <==> forall r :: 0 <= r < |scores| ==> scores[r].None?
  {
    FirstMaxIsFirst(scores);
    hide FirstMax;
  }

  /** `Best` names the first entry with the highest counted score, and nothing only when nothing counts. */
  lemma BestIsTheFirstMaximum(catalog: seq<Entry>, g: Game, minScore: int, b: nat)
    ensures IsBest(catalog, g, minScore, b) <==> Best(catalog, g, minScore) == Some(b)
    ensures Best(catalog, g, minScore) == None <==> NoMatch(catalog, g, minScore)
  {
    hide Counted, FirstMax;
    var scores := Scores(catalog, g, minScore);
    FirstMaxExactly(scores, b);
    assert forall r :: 0 <= r < |catalog| ==> scores[r] == Counted(catalog[r], g, minScore);
  }

  /** The loop of `best_famous_match`. */
  method BestFamousMatch(catalog: seq<Entry>, g: Game, minScore: int) returns (best: Option<nat>)
    ensures best == Best(catalog, g, minScore)
    ensures best.None? ==> forall r :: 0 <= r < |catalog| ==> !Reaches(Score(catalog[r], g), minScore)
    ensures best.Some? ==>
      && best.value < |catalog| && Reaches(Score(catalog[best.value], g), minScore)
      && forall r :: 0 <= r < |catalog| && Reaches(Score(catalog[r], g), minScore) ==>
           if r < best.value then Score(catalog[r], g).value < Score(catalog[best.value], g).value
           else Score(catalog[r], g).value <= Score(catalog[best.value], g).value
  {
    hide Score;
    best := None;
    ghost var scores := Scores(catalog, g, minScore);
    for i := 0 to |catalog|
      invariant best == FirstMax(scores[..i])
    {
      assert scores[..i + 1][..i] == scores[..i];
      var score := Score(catalog[i], g);
      if score.Some? && score.value >= minScore {
        if best.None? {
          best := Some(i);
        } else {
          assert scores[best.value].Some?;
          var top := Score(catalog[best.value], g);
          if score.value > top.value { best := Some(i); }
        }
      }
    }
    assert scores[..|catalog|] == scores;
    BestIsTheFirstMaximum(catalog, g, minScore, if best.Some? then best.value else 0);
    hide Best, FirstMax;
  }

  predicate Reaches(score: Option<int>, minScore: int) {
    score.Some? && score.value >= minScore
  }

  // ---- Applying the metadata ----

  /** `list(dict.fromkeys(xs))`: the first occurrence of every element, in order. */
  function Dedup(xs: seq<string>): seq<string> {
    if |xs| == 0 then []
    else
      var rest := Dedup(xs[..|xs| - 1]);
      if xs[|xs| - 1] in rest then rest else rest + [xs[|xs| - 1]]
  }

  function DesiredTags(e: Entry): seq<string> {
    var named := if "famous" in e.tags then e.tags else e.tags + ["famous"];
    var stamp := "catalog:" + e.id;
    if stamp in named then named else named + [stamp]
  }

  const CATALOG_ID := "famous_catalog_id"
  const SIGNIFICANCE := "famous_significance"

  function CuratedMeta(meta: map<string, string>, e: Entry): map<string, string> {
    if CATALOG_ID in meta && meta[CATALOG_ID] == e.id then meta
    else
      var stamped := meta[CATALOG_ID := e.id];
      if e.significance != "" then stamped[SIGNIFICANCE := Strip(e.significance)] else stamped
  }

  function CuratedEvent(g: Game, e: Entry): Option<string> {
    if Truthy(e.event) && !Truthy(g.event) then e.event else g.event
  }

  function CuratedYear(g: Game, e: Entry): Option<int> {
    if e.year != 0 && g.year.None? then Some(e.year) else g.year
  }

  /** The game after `apply_famous_metadata`. */
  function Curated(g: Game, e: Entry): Game {
    g.(isFamous := true, famousTitle := Some(e.title), tags := Dedup(g.tags + DesiredTags(e)),
       event := CuratedEvent(g, e), year := CuratedYear(g, e), meta := CuratedMeta(g.meta, e))
  }

  lemma {:induction false} DedupMembers(xs: seq<string>, x: string)
    ensures x in Dedup(xs) <==> x in xs
  {
    if |xs| != 0 { DedupMembers(xs[..|xs| - 1], x); }
  }

  lemma {:induction false} DedupAppendKnown(xs: seq<string>, ys: seq<string>)
    requires forall y :: y in ys ==> y in xs
    ensures Dedup(xs + ys) == Dedup(xs)
  {
    if |ys| == 0 {
      assert xs + ys == xs;
    } else {
      var last := ys[|ys| - 1];
      assert (xs + ys)[..|xs + ys| - 1] == xs + ys[..|ys| - 1];
      DedupAppendKnown(xs, ys[..|ys| - 1]);
      DedupMembers(xs, last);
    }
  }

  lemma {:induction false} DedupIsIdempotent(xs: seq<string>)
    ensures Dedup(Dedup(xs)) == Dedup(xs)
  {
    if |xs| != 0 {
      var rest := Dedup(xs[..|xs| - 1]);
      DedupIsIdempotent(xs[..|xs| - 1]);
      if xs[|xs| - 1] !in rest { assert (rest + [xs[|xs| - 1]])[..|rest|] == rest; }
    }
  }

  /** Tags merged once are merged. */
  lemma MergeTwice(tags: seq<string>, desired: seq<string>)
    ensures Dedup(Dedup(tags + desired) + desired) == Dedup(tags + desired)
  {
    var all := tags + desired;
    forall t | t in desired ensures t in Dedup(all) { DedupMembers(all, t); }
    DedupAppendKnown(Dedup(all), desired);
    DedupIsIdempotent(all);
  }

  lemma StampTwice(meta: map<string, string>, e: Entry)
    ensures CuratedMeta(CuratedMeta(meta, e), e) == CuratedMeta(meta, e)
  {
    assert CATALOG_ID != SIGNIFICANCE;
  }

  /** Applying the same entry again changes nothing. */
  lemma CurateTwice(g: Game, e: Entry)
    ensures Curated(Curated(g, e), e) == Curated(g, e)
  {
    hide Dedup, DesiredTags, CuratedMeta;
    MergeTwice(g.tags, DesiredTags(e));
    StampTwice(g.meta, e);
  }

  /** Applying another entry always shows: its id replaces the stamped one. */
  lemma CurateWithOtherChanges(g: Game, e: Entry, other: Entry)
    requires e.id != other.id
    ensures Curated(Curated(g, e), other) != Curated(g, e)
  {
    assert Curated(g, e).meta[CATALOG_ID] == e.id;
    assert Curated(Curated(g, e), other).meta[CATALOG_ID] == other.id;
  }

  // ---- Curation is a fixpoint ----

  /** A missing event matches nobody. */
  lemma NoEventNoMatch(e: Entry, event: Option<string>)
    requires !Truthy(event)
    ensures !EventMatch(e, event)
  {}

  /** An entry matches its own event unless nothing of it survives normalisation, and then nobody does. */
  lemma OwnEventMatches(e: Entry)
    requires Truthy(e.event)
    ensures EventMatch(e, e.event) <==> NormalizeName(e.event) != ""
  {
    var own := NormalizeName(e.event);
    assert EventCandidates(e)[0] == own;
    assert OccursAt(own, own, 0);
    assert EventTextMatches(own, own);
  }

  /** What one entry gains when a missing event is filled in with `e`'s: nothing if `e` itself gains nothing,
      at most ten points otherwise, and an entry that was no match cannot reach 80. */
  lemma GainFromEvent(x: Entry, e: Entry, g: Game)
    requires !Truthy(g.event) && Truthy(e.event)
    ensures var bonus := if NormalizeName(e.event) != "" then 10 else 0;
      var before := Score(x, g);
      var after := Score(x, g.(event := e.event));
      && (x == e && !ExactFingerprint(e, g) && before.Some? ==> after == Some(before.value + bonus))
      && (before.Some? && after.Some? ==> after.value <= before.value + bonus)
      && (before.None? && after.Some? ==> bonus == 10 && after.value < 80)
  {
    NoEventNoMatch(x, g.event);
    OwnEventMatches(e);
    var s := SignalsOf(x, g);
    assert SignalsOf(x, g.(event := e.event)) == s.(event := EventMatch(x, e.event));
  }

  /** Filling a missing event gives the winner its ten points whenever it gives them to anybody, so the
      winner stays the first maximum. */
  lemma FilledEventKeepsWinner(catalog: seq<Entry>, g: Game, minScore: int, b: nat)
    requires IsBest(catalog, g, minScore, b) && !ExactFingerprint(catalog[b], g)
    requires !Truthy(g.event) && Truthy(catalog[b].event)
    ensures IsBest(catalog, g.(event := catalog[b].event), minScore, b)
  {
    var e := catalog[b];
    var g' := g.(event := e.event);
    GainFromEvent(e, e, g);
    forall r | 0 <= r < |catalog| && Counted(catalog[r], g', minScore).Some?
      ensures Counted(catalog[r], g', minScore).value <= Counted(e, g', minScore).value
      ensures r < b ==> Counted(catalog[r], g', minScore).value < Counted(e, g', minScore).value
    {
      GainFromEvent(catalog[r], e, g);
      assert Counted(catalog[r], g, minScore).Some? ==>
        Score(catalog[r], g).value <= Score(e, g).value && (r < b ==> Score(catalog[r], g).value < Score(e, g).value);
    }
  }

  /** Scores ignore everything curation writes except the event and the year. */
  lemma ScoreReadsSignals(e: Entry, g: Game, g': Game)
    requires g'.white == g.white && g'.black == g.black && g'.event == g.event && g'.year == g.year
    requires g'.fingerprint == g.fingerprint && g'.uciMoves == g.uciMoves
    ensures Score(e, g') == Score(e, g)
  {}

  /** The game with the event and year the entry would fill in, and nothing else changed. */
  function Filled(g: Game, e: Entry): Game {
    g.(event := CuratedEvent(g, e), year := CuratedYear(g, e))
  }

  /** A rival whose score passes the flat 100 of an exact-fingerprint winner once the winner has filled in
      the event and the year. */
  predicate Overtakes(catalog: seq<Entry>, g: Game, minScore: int, b: nat, r: nat)
    requires b < |catalog| && r < |catalog|
  {
    var score := Counted(catalog[r], Filled(g, catalog[b]), minScore);
    score.Some? && (score.value > 100 || (score.value == 100 && r < b))
  }

  /** Curation leaves every score where filling in the event and the year alone would leave it. */
  lemma CuratedScores(catalog: seq<Entry>, g: Game, minScore: int, e: Entry, b: nat)
    ensures IsBest(catalog, Curated(g, e), minScore, b) <==> IsBest(catalog, Filled(g, e), minScore, b)
  {
    forall r | 0 <= r < |catalog|
      ensures Counted(catalog[r], Curated(g, e), minScore) == Counted(catalog[r], Filled(g, e), minScore)
    {
      ScoreReadsSignals(catalog[r], Filled(g, e), Curated(g, e));
    }
  }

  /** An exact-fingerprint winner keeps its flat 100, so it stays best exactly when nobody overtakes it. */
  lemma FlatHundredStaysBest(catalog: seq<Entry>, g: Game, minScore: int, b: nat)
    requires IsBest(catalog, g, minScore, b) && ExactFingerprint(catalog[b], g)
    ensures IsBest(catalog, Filled(g, catalog[b]), minScore, b) <==>
      forall r :: 0 <= r < |catalog| ==> !Overtakes(catalog, g, minScore, b, r)
  {
    var filled := Filled(g, catalog[b]);
    assert Counted(catalog[b], filled, minScore) == Some(100);
    if IsBest(catalog, filled, minScore, b) {
      forall r | 0 <= r < |catalog| ensures !Overtakes(catalog, g, minScore, b, r) {
        assert Counted(catalog[r], filled, minScore).Some? ==> Counted(catalog[r], filled, minScore).value <= 100;
      }
    } else if forall r :: 0 <= r < |catalog| ==> !Overtakes(catalog, g, minScore, b, r) {
      forall r | 0 <= r < |catalog| && Counted(catalog[r], filled, minScore).Some?
        ensures Counted(catalog[r], filled, minScore).value <= 100
        ensures r < b ==> Counted(catalog[r], filled, minScore).value < 100
      {
        assert !Overtakes(catalog, g, minScore, b, r);
      }
    }
  }

  /** Main result.  After the best entry has been applied it is still the best, for every catalog, game and
      threshold, unless it won by exact fingerprint and a rival overtakes its flat 100. */
  lemma WinnerStaysBest(catalog: seq<Entry>, g: Game, minScore: int, b: nat)
    requires Best(catalog, g, minScore) == Some(b)
    ensures Best(catalog, Curated(g, catalog[b]), minScore) == Some(b) <==>
      (ExactFingerprint(catalog[b], g) ==> forall r :: 0 <= r < |catalog| ==> !Overtakes(catalog, g, minScore, b, r))
  {
    var e := catalog[b];
    var filled := Filled(g, e);
    CuratedScores(catalog, g, minScore, e, b);
    BestIsTheFirstMaximum(catalog, g, minScore, b);
    BestIsTheFirstMaximum(catalog, Curated(g, e), minScore, b);
    if ExactFingerprint(e, g) {
      FlatHundredStaysBest(catalog, g, minScore, b);
    } else {
      assert YearPoints(e, g).Some?;
      assert filled == g.(event := filled.event);
      if filled.event != g.event {
        FilledEventKeepsWinner(catalog, g, minScore, b);
      } else {
        assert filled == g;
      }
    }
  }

  /** One pass of the service over one game. */
  function Pass(catalog: seq<Entry>, minScore: int, g: Game): Game {
    var best := Best(catalog, g, minScore);
    if best.Some? then Curated(g, catalog[best.value]) else g
  }

  ghost predicate DistinctIds(catalog: seq<Entry>) {
    forall i, j :: 0 <= i < j < |catalog| ==> catalog[i].id != catalog[j].id
  }

  /** The condition a caller can check before the first pass. */
  predicate Settles(catalog: seq<Entry>, minScore: int, g: Game) {
    var best := Best(catalog, g, minScore);
    best.Some? && ExactFingerprint(catalog[best.value], g) ==>
      forall r :: 0 <= r < |catalog| ==> !Overtakes(catalog, g, minScore, best.value, r)
  }

  /** Main result.  A second pass changes nothing when the game settles, and in a catalog without repeated ids
      only then; a game whose winner did not win by exact fingerprint always does. */
  lemma SecondPassIsNoop(catalog: seq<Entry>, minScore: int, g: Game)
    ensures Settles(catalog, minScore, g) ==>
      Pass(catalog, minScore, Pass(catalog, minScore, g)) == Pass(catalog, minScore, g)
    ensures DistinctIds(catalog) ==>
      (Pass(catalog, minScore, Pass(catalog, minScore, g)) == Pass(catalog, minScore, g) ==> Settles(catalog, minScore, g))
  {
    hide Best, Curated, Overtakes, Counted, ExactFingerprint;
    var best := Best(catalog, g, minScore);
    if best.Some? {
      var b := best.value;
      var g' := Curated(g, catalog[b]);
      WinnerStaysBest(catalog, g, minScore, b);
      BestIsTheFirstMaximum(catalog, g, minScore, b);
      BestIsTheFirstMaximum(catalog, g', minScore, b);
      if Settles(catalog, minScore, g) {
        CurateTwice(g, catalog[b]);
      } else if DistinctIds(catalog) {
        WinnerStillCounts(catalog[b], g, minScore);
        var b' := Best(catalog, g', minScore).value;
        assert catalog[b'].id != catalog[b].id;
        CurateWithOtherChanges(g, catalog[b], catalog[b']);
      }
    }
  }

  /** A game whose event and year are already there settles, fingerprint or not: no score can change. */
  lemma CompleteGameSettles(catalog: seq<Entry>, minScore: int, g: Game)
    requires Truthy(g.event) && g.year.Some?
    ensures Settles(catalog, minScore, g)
  {
    var best := Best(catalog, g, minScore);
    if best.Some? && ExactFingerprint(catalog[best.value], g) {
      assert Filled(g, catalog[best.value]) == g;
      BestIsTheFirstMaximum(catalog, g, minScore, best.value);
      FlatHundredStaysBest(catalog, g, minScore, best.value);
    }
  }

  lemma WinnerStillCounts(e: Entry, g: Game, minScore: int)
    requires ExactFingerprint(e, g) && Counted(e, g, minScore).Some?
    ensures Counted(e, Curated(g, e), minScore).Some?
  {}

  // ---- Settling, in the fields ----

  /** The points of an entry for a game of this year and event, before any threshold. */
  function Points(x: Entry, g: Game, year: Option<int>, event: Option<string>): int {
    (if x.year == 0 then 0 else if year == Some(x.year) then 40 else 15)
    + (if UciPrefixMatch(g.uciMoves, x.uciPrefix) then 50 else 0)
    + (if PlayerMatch(x.white, x.whiteAliases, g.white) then 25 else 0)
    + (if PlayerMatch(x.black, x.blackAliases, g.black) then 25 else 0)
    + (if EventMatch(x, event) then 10 else 0)
  }

  /** Entry `x` gets past winner `e`: the game lacks its year or its event; with the winner's in their place, the
      year is within one of the entry's, and the points come to more than 100, or to 100 from an earlier place. */
  predicate GetsPast(x: Entry, e: Entry, g: Game, earlier: bool) {
    var year := if g.year.None? && e.year != 0 then Some(e.year) else g.year;
    var event := if Truthy(g.event) then g.event else e.event;
    var points := Points(x, g, year, event);
    && (g.year.None? || !Truthy(g.event)) && !ExactFingerprint(x, g)
    && (x.year == 0 || (year.Some? && Abs(year.value - x.year) <= 1))
    && (points > 100 || (points == 100 && earlier))
  }

  lemma FilledScore(x: Entry, e: Entry, g: Game)
    requires !ExactFingerprint(x, g)
    ensures var year := if g.year.None? && e.year != 0 then Some(e.year) else g.year;
      var event := if Truthy(g.event) then g.event else e.event;
      var points := Points(x, g, year, event);
      var inRange := x.year == 0 || (year.Some? && Abs(year.value - x.year) <= 1);
      var score := Score(x, Filled(g, e));
      (inRange && points >= 100 ==> score == Some(points)) && (score.Some? ==> inRange && score.value == points)
  {
    hide UciPrefixMatch, PlayerMatch;
    if !Truthy(g.event) { NoEventNoMatch(x, g.event); }
    if !Truthy(e.event) { NoEventNoMatch(x, e.event); }
    hide EventMatch;
  }

  /** Overtaking, said of the rival's and the game's fields. */
  lemma OvertakesInFields(catalog: seq<Entry>, g: Game, minScore: int, b: nat, r: nat)
    requires IsBest(catalog, g, minScore, b) && ExactFingerprint(catalog[b], g) && r < |catalog|
    ensures Overtakes(catalog, g, minScore, b, r) <==> GetsPast(catalog[r], catalog[b], g, r < b)
  {
    hide Points, SignalsOf;
    var x, e := catalog[r], catalog[b];
    assert Score(e, g) == Some(100) by { ExactScores(e, g); }
    if ExactFingerprint(x, g) {
      ExactScores(x, g);
      ExactScores(x, Filled(g, e));
    } else {
      FilledScore(x, e, g);
      if !(g.year.None? || !Truthy(g.event)) { assert Filled(g, e) == g; }
    }
  }

  lemma ExactScores(x: Entry, g: Game)
    requires ExactFingerprint(x, g)
    ensures Score(x, g) == Some(100)
  {}

  /** The condition of the no-op, said so: no winner, a winner by other signals, or no rival that gets past. */
  lemma SettlesInFields(catalog: seq<Entry>, minScore: int, g: Game)
    ensures var best := Best(catalog, g, minScore);
      Settles(catalog, minScore, g) <==>
        (best.Some? && ExactFingerprint(catalog[best.value], g) ==>
           forall r :: 0 <= r < |catalog| ==> !GetsPast(catalog[r], catalog[best.value], g, r < best.value))
  {
    hide Best, Overtakes, GetsPast;
    var best := Best(catalog, g, minScore);
    if best.Some? && ExactFingerprint(catalog[best.value], g) {
      BestIsTheFirstMaximum(catalog, g, minScore, best.value);
      forall r | 0 <= r < |catalog|
        ensures Overtakes(catalog, g, minScore, best.value, r) <==> GetsPast(catalog[r], catalog[best.value], g, r < best.value)
      {
        OvertakesInFields(catalog, g, minScore, best.value, r);
      }
    }
  }

  /** A catalog and a game that do not settle: the fingerprint winner fills in the year, and the year lets a
      rival with the opening moves and a player score 115. */
  lemma FingerprintWinnerCanBeOvertaken() returns (catalog: seq<Entry>, g: Game)
    ensures DistinctIds(catalog) && !Settles(catalog, DEFAULT_MIN_SCORE, g)
  {
    var e := Entry("e", "E", "x", "y", 1851, [], [], None, [], [], "", [], Some("f"));
    var rival := Entry("r", "R", "a", "z", 1851, [], [], None, [], [], "", ["m"], None);
    g := Game(Some("a"), None, None, None, "f", ["m"], false, None, [], map[]);
    catalog := [e, rival];
    assert Score(rival, g) == None;
    assert Score(e, g) == Some(100);
    assert IsBest(catalog, g, DEFAULT_MIN_SCORE, 0);
    BestIsTheFirstMaximum(catalog, g, DEFAULT_MIN_SCORE, 0);
    var filled := Filled(g, e);
    assert YearPoints(rival, filled) == Some(40);
    assert UciPrefixMatch(["m"], ["m"]) by { assert Lower("m") == "m"; }
    assert PlayerMatch("a", [], Some("a")) by {
      assert Lower("a") == "a" && Collapse("a", false) == "a";
      assert NormalizeName(Some("a")) == "a";
      assert Candidates("a", [])[0] == "a";
      assert OccursAt("a", "a", 0);
      assert NameMatches("a", "a");
    }
    assert Overtakes(catalog, g, DEFAULT_MIN_SCORE, 0, 1);
  }
}
