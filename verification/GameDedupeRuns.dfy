/** What every run of racing upserts keeps. */
module GameDedupeRuns {
  import opened Wrappers
  import opened Fingerprint
  import opened CleanText
  import opened GameDedupe
  import Text

  // ---- Fields: the first sighting wins ----

  /** The fields after a list of sightings. */
  function Fold(sightings: seq<Fields>): Fields
    requires |sightings| > 0
  {
    if |sightings| == 1 then sightings[0]
    else Enriched(Fold(sightings[..|sightings| - 1]), sightings[|sightings| - 1])
  }

  /** Sighting `i` is the first one that knows `k`. */
  ghost predicate FirstToKnow(sightings: seq<Fields>, k: Field, i: int) {
    0 <= i < |sightings| && k in sightings[i] && forall j :: 0 <= j < i ==> k !in sightings[j]
  }

  /** What a fold holds for one field: nothing when no sighting knew it, else the value of the first that did. */
  ghost predicate Settled(sightings: seq<Fields>, fields: Fields, k: Field) {
    if k in fields then exists i :: FirstToKnow(sightings, k, i) && fields[k] == sightings[i][k]
    else forall i :: 0 <= i < |sightings| ==> k !in sightings[i]
  }

  lemma SettledStays(sightings: seq<Fields>, fields: Fields, last: Fields, k: Field)
    requires Settled(sightings, fields, k)
    ensures Settled(sightings + [last], Enriched(fields, last), k)
  {
    var more := sightings + [last];
    if k in fields {
      var i :| FirstToKnow(sightings, k, i) && fields[k] == sightings[i][k];
      assert FirstToKnow(more, k, i) && more[i] == sightings[i];
    } else if k in last {
      assert FirstToKnow(more, k, |sightings|) && more[|sightings|] == last;
    }
  }

  /** Each sparse field holds the value of the first sighting that knew it, and is NULL only if none did. */
  lemma {:induction false} FirstSightingWins(sightings: seq<Fields>, k: Field)
    requires |sightings| > 0
    ensures Settled(sightings, Fold(sightings), k)
  {
    var last := |sightings| - 1;
    if last == 0 {
      if k in sightings[0] { assert FirstToKnow(sightings, k, 0); }
    } else {
      FirstSightingWins(sightings[..last], k);
      SettledStays(sightings[..last], Fold(sightings[..last]), sightings[last], k);
      assert sightings[..last] + [sightings[last]] == sightings;
    }
  }

  // ---- The invariant ----

  /** The fields are those of the sightings, and the fingerprint is still the one of the row's own content. */
  ghost predicate GameOk(g: Game) {
    && |g.sightings| > 0 && g.fields == Fold(g.sightings)
    && IsChess(g.fen, g.moves, g.fields)
    && g.fingerprint == FingerprintOf(g.fen, g.moves, g.fields)
  }

  /** The row an upsert works on. */
  function Target(pc: Pc): Option<nat> {
    match pc
    case Enrich(g) => Some(g)
    case Attach(g, _) => Some(g)
    case InsertSource(g, _) => Some(g)
    case Done(g, _, _) => Some(g)
    case _ => None
  }

  /** The row an upsert has inserted. */
  function Made(pc: Pc): Option<nat> {
    match pc
    case Attach(g, true) => Some(g)
    case InsertSource(g, true) => Some(g)
    case Done(g, true, _) => Some(g)
    case _ => None
  }

  ghost predicate UpsertOk(games: seq<Game>, u: nat, up: Upsert) {
    && IsChess(up.fen, up.moves, up.fields)
    && (Target(up.pc).Some? ==>
          var g := Target(up.pc).value;
          g < |games| && games[g].tenant == up.tenant && games[g].fingerprint == FingerprintOf(up.fen, up.moves, up.fields))
    && (Made(up.pc).Some? ==> var g := Made(up.pc).value; games[g].creator == u && games[g].source == up.source)
  }

  ghost predicate CreatorOk(upserts: map<nat, Upsert>, g: Game, i: nat) {
    g.creator in upserts && Made(upserts[g.creator].pc) == Some(i)
  }

  ghost predicate RowOk(upserts: map<nat, Upsert>, row: Provenance) {
    && row.author in upserts
    && upserts[row.author].pc == Done(row.game, row.primary, true)
    && upserts[row.author].source == row.source && upserts[row.author].tenant == row.tenant
  }

  /** The upserts that created a game, and those that created a provenance row. */
  function Makers(upserts: map<nat, Upsert>): set<nat> {
    set u | u in upserts && Made(upserts[u].pc).Some?
  }

  predicate Attached(pc: Pc) {
    pc.Done? && pc.sourceCreated
  }

  function Attachers(upserts: map<nat, Upsert>): set<nat> {
    set u | u in upserts && Attached(upserts[u].pc)
  }

  ghost predicate Tables(s: State) {
    && GamesUnique(s.games) && SourcesUnique(s.sources)
    && (forall i :: 0 <= i < |s.games| ==> GameOk(s.games[i]))
  }

  ghost predicate Links(s: State) {
    && (forall u :: u in s.upserts ==> UpsertOk(s.games, u, s.upserts[u]))
    && (forall i :: 0 <= i < |s.games| ==> CreatorOk(s.upserts, s.games[i], i))
    && (forall i :: 0 <= i < |s.sources| ==> RowOk(s.upserts, s.sources[i]))
    && (forall i, j :: 0 <= i < j < |s.sources| ==> s.sources[i].author != s.sources[j].author)
  }

  ghost predicate Counts(s: State) {
    |s.games| == |Makers(s.upserts)| && |s.sources| == |Attachers(s.upserts)|
  }

  ghost predicate Inv(s: State) {
    Tables(s) && Links(s) && Counts(s)
  }

  // ---- Enrichment keeps the fingerprint ----

  /** Filling in a NULL result from a sighting with the same fingerprint does not change the fingerprint:
      a missing result and the one it is replaced by read the same. */
  lemma EnrichKeepsFingerprint(g: Game, fen: string, moves: seq<string>, fields: Fields)
    requires GameOk(g) && IsChess(fen, moves, fields) && g.fingerprint == FingerprintOf(fen, moves, fields)
    ensures GameOk(Sighted(g, fields))
  {
    var g' := Sighted(g, fields);
    assert g'.sightings[..|g'.sightings| - 1] == g.sightings;
    FingerprintIsIdentity(IdentityOf(g.fen, g.moves, ResultOf(g.fields)), IdentityOf(fen, moves, ResultOf(fields)));
  }

  // ---- Steps ----

  lemma NewGameOk(up: Upsert, u: nat)
    requires IsChess(up.fen, up.moves, up.fields)
    ensures GameOk(NewGame(up, u))
  {}

  lemma GamesStep(s: State, u: nat)
    requires Tables(s) && Enabled(s, Run(u)) && UpsertOk(s.games, u, s.upserts[u])
    ensures var games := NextGames(s.games, u, s.upserts[u]);
      GamesUnique(games) && forall i :: 0 <= i < |games| ==> GameOk(games[i])
  {
    hide FingerprintOf, IsChess, GameOk, SourcesUnique, CreatorOk, RowOk, Makers, Attachers, NewGame;
    var up := s.upserts[u];
    NewGameOk(up, u);
    match up.pc
    case Enrich(g) => EnrichKeepsFingerprint(s.games[g], up.fen, up.moves, up.fields);
    case _ =>
  }

  lemma SourcesStep(s: State, u: nat)
    requires SourcesUnique(s.sources) && Enabled(s, Run(u))
    ensures SourcesUnique(NextSources(s.sources, u, s.upserts[u]))
  {
    hide NextPc;
  }

  /** Rows keep their tenant, fingerprint, creator and source. */
  lemma RowsStay(games: seq<Game>, u: nat, up: Upsert, i: nat)
    requires i < |games|
    ensures var games' := NextGames(games, u, up);
      && |games'| >= |games|
      && games'[i].tenant == games[i].tenant && games'[i].fingerprint == games[i].fingerprint
      && games'[i].creator == games[i].creator && games'[i].source == games[i].source
  {}

  /** The upsert that moves finds its row in place. */
  lemma MoverOk(s: State, u: nat)
    requires Enabled(s, Run(u)) && UpsertOk(s.games, u, s.upserts[u])
    ensures var s' := Next(s, Run(u)); UpsertOk(s'.games, u, s'.upserts[u])
  {
    hide FingerprintOf, IsChess, GameFits, SourceFits, SourceExists;
    var up := s.upserts[u];
    var target := Target(up.pc);
    if target.Some? { RowsStay(s.games, u, up, target.value); }
  }

  lemma OthersOk(s: State, u: nat, v: nat)
    requires Enabled(s, Run(u)) && v in s.upserts && v != u && UpsertOk(s.games, v, s.upserts[v])
    ensures var s' := Next(s, Run(u)); UpsertOk(s'.games, v, s'.upserts[v])
  {
    hide FingerprintOf, IsChess, NextGames;
    var target := Target(s.upserts[v].pc);
    if target.Some? { RowsStay(s.games, u, s.upserts[u], target.value); }
  }

  lemma CreatorsStep(s: State, u: nat, i: nat)
    requires Enabled(s, Run(u)) && i < |Next(s, Run(u)).games|
    requires i < |s.games| ==> CreatorOk(s.upserts, s.games[i], i)
    ensures var s' := Next(s, Run(u)); CreatorOk(s'.upserts, s'.games[i], i)
  {
    hide FingerprintOf, IsChess, GameFits, SourceFits, SourceExists, FindLive;
    if i < |s.games| {
      RowsStay(s.games, u, s.upserts[u], i);
    }
  }

  lemma RowsStep(s: State, u: nat)
    requires Enabled(s, Run(u)) && forall i :: 0 <= i < |s.sources| ==> RowOk(s.upserts, s.sources[i])
    requires forall i, j :: 0 <= i < j < |s.sources| ==> s.sources[i].author != s.sources[j].author
    ensures var s' := Next(s, Run(u));
      && (forall i :: 0 <= i < |s'.sources| ==> RowOk(s'.upserts, s'.sources[i]))
      && (forall i, j :: 0 <= i < j < |s'.sources| ==> s'.sources[i].author != s'.sources[j].author)
  {
    hide FingerprintOf, IsChess, GameFits, SourceFits, SourceExists, FindLive, NextGames;
    forall i | 0 <= i < |s.sources| ensures RowOk(s.upserts, s.sources[i]) && s.sources[i].author != u {}
  }

  lemma LinksStep(s: State, u: nat)
    requires Links(s) && Enabled(s, Run(u))
    ensures Links(Next(s, Run(u)))
  {
    hide UpsertOk, CreatorOk, RowOk, NextGames, NextSources, NextPc;
    var s' := Next(s, Run(u));
    MoverOk(s, u);
    forall v | v in s'.upserts && v != u ensures UpsertOk(s'.games, v, s'.upserts[v]) { OthersOk(s, u, v); }
    forall i | 0 <= i < |s'.games| ensures CreatorOk(s'.upserts, s'.games[i], i) { CreatorsStep(s, u, i); }
    RowsStep(s, u);
  }

  lemma AddedOnce(s: set<nat>, u: nat)
    ensures |s + {u}| == |s| + if u in s then 0 else 1
  {
    if u in s { assert s + {u} == s; }
  }

  lemma MakersMoved(upserts: map<nat, Upsert>, u: nat, up: Upsert)
    requires Made(up.pc).None? ==> u !in Makers(upserts)
    ensures |Makers(upserts[u := up])| ==
      |Makers(upserts)| + if Made(up.pc).Some? && u !in Makers(upserts) then 1 else 0
  {
    hide Made;
    if Made(up.pc).Some? {
      assert Makers(upserts[u := up]) == Makers(upserts) + {u};
      AddedOnce(Makers(upserts), u);
    } else {
      assert Makers(upserts[u := up]) == Makers(upserts);
    }
  }

  lemma AttachersMoved(upserts: map<nat, Upsert>, u: nat, up: Upsert)
    requires !Attached(up.pc) ==> u !in Attachers(upserts)
    ensures |Attachers(upserts[u := up])| ==
      |Attachers(upserts)| + if Attached(up.pc) && u !in Attachers(upserts) then 1 else 0
  {
    hide Attached;
    if Attached(up.pc) {
      assert Attachers(upserts[u := up]) == Attachers(upserts) + {u};
      AddedOnce(Attachers(upserts), u);
    } else {
      assert Attachers(upserts[u := up]) == Attachers(upserts);
    }
  }

  lemma CountsStep(s: State, u: nat)
    requires Counts(s) && Enabled(s, Run(u))
    ensures Counts(Next(s, Run(u)))
  {
    hide FingerprintOf, IsChess, GameFits, SourceFits, SourceExists, FindLive;
    MakersMoved(s.upserts, u, Next(s, Run(u)).upserts[u]);
    AttachersMoved(s.upserts, u, Next(s, Run(u)).upserts[u]);
  }

  lemma LookupMadeNothing()
    ensures Made(Lookup) == None && Target(Lookup) == None && !Attached(Lookup)
  {}

  lemma ArriveKeepsInv(s: State, step: Step)
    requires Inv(s) && step.Arrive? && Enabled(s, step)
    ensures Inv(Next(s, step))
  {
    hide FingerprintOf, IsChess, GameOk, GamesUnique, SourcesUnique, Made, Attached;
    var s' := Next(s, step);
    assert Made(Lookup) == None && !Attached(Lookup) by { LookupMadeNothing(); }
    assert Counts(s') by {
      hide Links;
      MakersMoved(s.upserts, step.u, s'.upserts[step.u]);
      AttachersMoved(s.upserts, step.u, s'.upserts[step.u]);
    }
    assert Links(s') by {
      hide Counts;
      forall i | 0 <= i < |s.games| ensures CreatorOk(s'.upserts, s.games[i], i) { assert CreatorOk(s.upserts, s.games[i], i); }
      forall i | 0 <= i < |s.sources| ensures RowOk(s'.upserts, s.sources[i]) { assert RowOk(s.upserts, s.sources[i]); }
    }
  }

  lemma DeleteKeepsInv(s: State, g: nat)
    requires Inv(s) && Enabled(s, SoftDelete(g))
    ensures Inv(Next(s, SoftDelete(g)))
  {
    hide FingerprintOf, IsChess, Fold, SourcesUnique, Makers, Attachers;
    var s' := Next(s, SoftDelete(g));
    forall u | u in s'.upserts ensures UpsertOk(s'.games, u, s'.upserts[u]) { assert UpsertOk(s.games, u, s.upserts[u]); }
  }

  lemma {:induction false} RunInv(s: State, steps: seq<Step>)
    requires Inv(s) && Legal(s, steps)
    ensures Inv(Exec(s, steps))
    decreases |steps|
  {
    if |steps| != 0 {
      match steps[0] {
        case Arrive(_, _, _, _, _, _) => ArriveKeepsInv(s, steps[0]);
        case Run(u) => GamesStep(s, u); SourcesStep(s, u); LinksStep(s, u); CountsStep(s, u);
        case SoftDelete(g) => DeleteKeepsInv(s, g);
      }
      RunInv(Next(s, steps[0]), steps[1..]);
    }
  }

  /** A text without these characters is still without them once it is cleaned. */
  lemma CleanKeepsOut(text: string, c: char)
    requires c !in text && !('a' <= c <= 'z')
    ensures c !in Text.Strip(text) && c !in LowerCase(text)
  {
    var before, after := StripTakesSpaces(text);
    assert forall i :: 0 <= i < |Text.Strip(text)| ==> Text.Strip(text)[i] == text[|before| + i];
  }

  lemma {:induction false} CleanMovesAreChess(moves: seq<string>)
    requires forall m :: m in moves ==> '|' !in m && ' ' !in m
    ensures forall m :: m in CleanMoves(moves) ==> m != "" && '|' !in m && ' ' !in m
  {
    if |moves| > 0 {
      var first := Text.Strip(moves[0]);
      assert moves[0] in moves;
      CleanKeepsOut(moves[0], '|');
      CleanKeepsOut(moves[0], ' ');
      CleanKeepsOut(first, '|');
      CleanKeepsOut(first, ' ');
      LowerIsLowerCase(first);
      CleanMovesAreChess(moves[1..]);
    }
  }

  /** Any game whose FEN holds no bar and whose moves hold neither bars nor blanks may arrive at any time. */
  lemma ChessGamesMayArrive(
      s: State, u: nat, tenant: nat, fen: string, moves: seq<string>, fields: Fields, source: Source)
    requires u !in s.upserts && '|' !in fen && forall m :: m in moves ==> '|' !in m && ' ' !in m
    ensures Enabled(s, Arrive(u, tenant, fen, moves, fields, source))
  {
    CleanKeepsOut(fen, '|');
    CleanMovesAreChess(moves);
  }

  // ---- Main results, over every run from empty tables ----

  const EMPTY := State([], [], map[])

  /** Two finished upserts of one tenant whose rows are live ended at the same row exactly when they sighted
      the same identity: stripped FEN, cleaned moves, result. */
  lemma SameRowIffSameIdentity(steps: seq<Step>, u: nat, v: nat)
    requires Legal(EMPTY, steps)
    requires var s := Exec(EMPTY, steps);
      && u in s.upserts && v in s.upserts && s.upserts[u].pc.Done? && s.upserts[v].pc.Done?
      && s.upserts[u].tenant == s.upserts[v].tenant
      && s.upserts[u].pc.game < |s.games| && s.upserts[v].pc.game < |s.games|
      && s.games[s.upserts[u].pc.game].live && s.games[s.upserts[v].pc.game].live
    ensures var s := Exec(EMPTY, steps);
      var a := s.upserts[u];
      var b := s.upserts[v];
      a.pc.game == b.pc.game <==>
        IdentityOf(a.fen, a.moves, if Result in a.fields then Some(a.fields[Result]) else None)
        == IdentityOf(b.fen, b.moves, if Result in b.fields then Some(b.fields[Result]) else None)
  {
    hide Fold, Legal, Exec, FingerprintOf, IsChess;
    RunInv(EMPTY, steps);
    var s := Exec(EMPTY, steps);
    assert UpsertOk(s.games, u, s.upserts[u]) && UpsertOk(s.games, v, s.upserts[v]);
    SightingsAgree(s.upserts[u], s.upserts[v]);
    OneLiveRow(s.games, s.upserts[u].pc.game, s.upserts[v].pc.game);
  }

  lemma SightingsAgree(a: Upsert, b: Upsert)
    requires IsChess(a.fen, a.moves, a.fields) && IsChess(b.fen, b.moves, b.fields)
    ensures FingerprintOf(a.fen, a.moves, a.fields) == FingerprintOf(b.fen, b.moves, b.fields) <==>
      IdentityOf(a.fen, a.moves, ResultOf(a.fields)) == IdentityOf(b.fen, b.moves, ResultOf(b.fields))
  {
    FingerprintIsIdentity(IdentityOf(a.fen, a.moves, ResultOf(a.fields)), IdentityOf(b.fen, b.moves, ResultOf(b.fields)));
  }

  lemma OneLiveRow(games: seq<Game>, i: nat, j: nat)
    requires GamesUnique(games) && i < |games| && j < |games|
    requires games[i].live && games[j].live && games[i].tenant == games[j].tenant
    ensures i == j <==> games[i].fingerprint == games[j].fingerprint
  {
    if i < j { assert !Clash(games[i], games[j]); }
    if j < i { assert !Clash(games[j], games[i]); }
  }

  /** A finished upsert ends at a row of its tenant with its own fingerprint, and every row was inserted by
      an upsert that says so and whose source the row carries. */
  lemma RowsAndUpsertsMatch(steps: seq<Step>)
    requires Legal(EMPTY, steps)
    ensures var s := Exec(EMPTY, steps);
      && (forall u :: u in s.upserts && s.upserts[u].pc.Done? ==>
            var up := s.upserts[u];
            && up.pc.game < |s.games| && s.games[up.pc.game].tenant == up.tenant
            && s.games[up.pc.game].fingerprint == FingerprintOf(up.fen, up.moves, up.fields))
      && (forall g :: 0 <= g < |s.games| ==>
            && s.games[g].creator in s.upserts && Made(s.upserts[s.games[g].creator].pc) == Some(g)
            && s.games[g].source == s.upserts[s.games[g].creator].source)
  {
    hide FingerprintOf, IsChess, Fold, Legal, Exec;
    RunInv(EMPTY, steps);
    var s := Exec(EMPTY, steps);
    forall g | 0 <= g < |s.games| ensures CreatorOk(s.upserts, s.games[g], g) {}
    forall u | u in s.upserts ensures UpsertOk(s.games, u, s.upserts[u]) {}
  }

  /** Rows are counted exactly by the outcomes: as many games as upserts that created one, as many provenance
      rows as upserts that created one. */
  lemma OutcomesCountRows(steps: seq<Step>)
    requires Legal(EMPTY, steps)
    ensures var s := Exec(EMPTY, steps);
      |s.games| == |Makers(s.upserts)| && |s.sources| == |Attachers(s.upserts)|
  {
    RunInv(EMPTY, steps);
  }

  /** A game has at most one primary provenance row, and it names the provider and external id that the game
      row itself carries. */
  lemma OnePrimarySource(steps: seq<Step>, i: nat, j: nat)
    requires Legal(EMPTY, steps)
    requires var s := Exec(EMPTY, steps);
      && i < |s.sources| && j < |s.sources| && s.sources[i].primary && s.sources[j].primary
      && s.sources[i].game == s.sources[j].game
    ensures var s := Exec(EMPTY, steps);
      i == j && s.sources[i].game < |s.games| && s.games[s.sources[i].game].source == s.sources[i].source
  {
    hide FingerprintOf, IsChess, Fold, Legal, Exec;
    RunInv(EMPTY, steps);
    var s := Exec(EMPTY, steps);
    assert RowOk(s.upserts, s.sources[i]) && RowOk(s.upserts, s.sources[j]);
    assert UpsertOk(s.games, s.sources[i].author, s.upserts[s.sources[i].author]);
    assert UpsertOk(s.games, s.sources[j].author, s.upserts[s.sources[j].author]);
  }

  /** Every field of every row is the first value sighted for it, and every row still has the fingerprint of
      its own FEN, moves and result. */
  lemma RowsKeepFirstSightings(steps: seq<Step>, g: nat, k: Field)
    requires Legal(EMPTY, steps) && g < |Exec(EMPTY, steps).games|
    ensures var row := Exec(EMPTY, steps).games[g];
      row.fingerprint == FingerprintOf(row.fen, row.moves, row.fields) && Settled(row.sightings, row.fields, k)
  {
    hide FingerprintOf, IsChess, Fold, Settled, Legal, Exec;
    RunInv(EMPTY, steps);
    var row := Exec(EMPTY, steps).games[g];
    assert GameOk(row);
    FirstSightingWins(row.sightings, k);
  }

  // ---- Which games have a primary row, and which upserts fail ----

  function Authors(sources: seq<Provenance>): set<nat> {
    set p | p in sources :: p.author
  }

  lemma {:induction false} AuthorsCount(sources: seq<Provenance>)
    requires forall i, j :: 0 <= i < j < |sources| ==> sources[i].author != sources[j].author
    ensures |Authors(sources)| == |sources|
  {
    if |sources| > 0 {
      var n := |sources| - 1;
      AuthorsCount(sources[..n]);
      assert sources == sources[..n] + [sources[n]];
      assert Authors(sources) == Authors(sources[..n]) + {sources[n].author};
    }
  }

  lemma {:induction false} FullSubset(a: set<nat>, b: set<nat>)
    requires a <= b && |a| == |b|
    ensures a == b
  {
    if a != b {
      var x :| x in b && x !in a;
      assert a <= b - {x};
      SmallerSubset(a, b - {x});
    }
  }

  lemma {:induction false} SmallerSubset(a: set<nat>, b: set<nat>)
    requires a <= b
    ensures |a| <= |b|
  {
    if a != {} {
      var x :| x in a;
      SmallerSubset(a - {x}, b - {x});
    }
  }

  /** An upsert that says it created a provenance row is the author of one. */
  lemma AttachersAreAuthors(s: State, u: nat) returns (i: nat)
    requires Links(s) && Counts(s) && u in Attachers(s.upserts)
    ensures i < |s.sources| && s.sources[i].author == u
  {
    hide UpsertOk, CreatorOk;
    AuthorsCount(s.sources);
    forall p | p in s.sources ensures p.author in Attachers(s.upserts) {
      var k :| 0 <= k < |s.sources| && s.sources[k] == p;
      assert RowOk(s.upserts, s.sources[k]);
    }
    FullSubset(Authors(s.sources), Attachers(s.upserts));
    assert u in Authors(s.sources);
    var p :| p in s.sources && p.author == u;
    i :| 0 <= i < |s.sources| && s.sources[i] == p;
  }

  ghost predicate HasPrimary(s: State, g: nat) {
    exists i :: 0 <= i < |s.sources| && s.sources[i].game == g && s.sources[i].primary
  }

  /** A game has a primary provenance row exactly when the upsert that inserted the game also created its row:
      no later sighting makes up for it. */
  lemma PrimaryExactlyWhenCreatorAttached(steps: seq<Step>, g: nat)
    requires Legal(EMPTY, steps) && g < |Exec(EMPTY, steps).games|
    ensures var s := Exec(EMPTY, steps);
      var creator := s.games[g].creator;
      creator in s.upserts && (HasPrimary(s, g) <==> s.upserts[creator].pc == Done(g, true, true))
  {
    hide FingerprintOf, IsChess, Fold, Legal, Exec;
    RunInv(EMPTY, steps);
    var s := Exec(EMPTY, steps);
    var creator := s.games[g].creator;
    assert CreatorOk(s.upserts, s.games[g], g);
    if HasPrimary(s, g) {
      var i :| 0 <= i < |s.sources| && s.sources[i].game == g && s.sources[i].primary;
      PrimaryIsTheCreators(s, i);
    }
    if s.upserts[creator].pc == Done(g, true, true) {
      var i := AttachersAreAuthors(s, creator);
      assert RowOk(s.upserts, s.sources[i]);
    }
  }

  lemma PrimaryIsTheCreators(s: State, i: nat)
    requires Inv(s) && i < |s.sources| && s.sources[i].primary
    ensures var g := s.sources[i].game;
      g < |s.games| && s.games[g].creator == s.sources[i].author
      && s.sources[i].author in s.upserts && s.upserts[s.sources[i].author].pc == Done(g, true, true)
  {
    hide FingerprintOf, IsChess, Fold, Counts, Tables;
    var u := s.sources[i].author;
    assert RowOk(s.upserts, s.sources[i]);
    assert UpsertOk(s.games, u, s.upserts[u]);
  }

  ghost predicate Recorded(sources: seq<Provenance>, up: Upsert, g: nat) {
    exists i :: 0 <= i < |sources| && Covers(sources[i], up.tenant, g, up.source)
  }

  ghost predicate AllRecorded(s: State) {
    forall u :: u in s.upserts && s.upserts[u].pc.Done? ==> Recorded(s.sources, s.upserts[u], s.upserts[u].pc.game)
  }

  lemma RecordedStays(sources: seq<Provenance>, more: seq<Provenance>, up: Upsert, g: nat)
    requires Recorded(sources, up, g) && sources <= more
    ensures Recorded(more, up, g)
  {
    var i :| 0 <= i < |sources| && Covers(sources[i], up.tenant, g, up.source);
    assert more[i] == sources[i];
  }

  /** The step that finishes an upsert finds a row for its sighting, or adds one. */
  lemma FinishIsRecorded(s: State, u: nat)
    requires Enabled(s, Run(u)) && NextPc(s, u, s.upserts[u]).Done?
    ensures var up := s.upserts[u];
      Recorded(NextSources(s.sources, u, up), up, NextPc(s, u, up).game)
  {
    hide FingerprintOf, FindLive, GameFits;
    var up := s.upserts[u];
    match up.pc
    case Attach(g, created) =>
      var i :| 0 <= i < |s.sources| && SameSighting(s.sources[i], up.tenant, g, up.source);
      assert Covers(s.sources[i], up.tenant, g, up.source);
    case InsertSource(g, created) =>
      var row := Provenance(up.tenant, g, up.source, created, u);
      if SourceFits(s.sources, row) {
        assert Covers((s.sources + [row])[|s.sources|], up.tenant, g, up.source);
      } else {
        var i :| 0 <= i < |s.sources| && SourcesClash(s.sources[i], row);
        assert Covers(s.sources[i], up.tenant, g, up.source);
      }
  }

  lemma StepKeepsRecords(s: State, step: Step)
    requires AllRecorded(s) && Enabled(s, step)
    ensures AllRecorded(Next(s, step))
  {
    hide Recorded, NextGames, NextSources, NextPc;
    var s' := Next(s, step);
    match step
    case Run(u) =>
      SourcesOnlyGrow(s.sources, u, s.upserts[u]);
      forall v | v in s'.upserts && s'.upserts[v].pc.Done?
        ensures Recorded(s'.sources, s'.upserts[v], s'.upserts[v].pc.game)
      {
        if v == u {
          FinishIsRecorded(s, u);
          RecordedOnlyReadsSighting(s'.sources, s.upserts[u], s'.upserts[u].pc);
        } else {
          RecordedStays(s.sources, s'.sources, s.upserts[v], s.upserts[v].pc.game);
        }
      }
    case _ =>
  }

  lemma SourcesOnlyGrow(sources: seq<Provenance>, u: nat, up: Upsert)
    ensures sources <= NextSources(sources, u, up)
  {}

  lemma RecordedOnlyReadsSighting(sources: seq<Provenance>, up: Upsert, pc: Pc)
    ensures pc.Done? ==> Recorded(sources, up.(pc := pc), pc.game) == Recorded(sources, up, pc.game)
  {
    if pc.Done? {
      forall p ensures Covers(p, up.tenant, pc.game, up.(pc := pc).source) == Covers(p, up.tenant, pc.game, up.source) {}
    }
  }

  lemma {:induction false} RecordsRun(s: State, steps: seq<Step>)
    requires AllRecorded(s) && Legal(s, steps)
    ensures AllRecorded(Exec(s, steps))
    decreases |steps|
  {
    hide AllRecorded;
    if |steps| != 0 {
      StepKeepsRecords(s, steps[0]);
      RecordsRun(Next(s, steps[0]), steps[1..]);
    }
  }

  /** Over every run no sighting is lost: for every finished upsert a provenance row records its sighting, and it
      is the upsert's own row exactly when the outcome says so.  So a game without a primary row has the sighting
      of its creator recorded by another upsert's row. */
  lemma EverySightingIsRecorded(steps: seq<Step>, u: nat) returns (i: nat)
    requires Legal(EMPTY, steps) && u in Exec(EMPTY, steps).upserts && Exec(EMPTY, steps).upserts[u].pc.Done?
    ensures var s := Exec(EMPTY, steps);
      var up := s.upserts[u];
      && i < |s.sources| && Covers(s.sources[i], up.tenant, up.pc.game, up.source)
      && (up.pc.sourceCreated <==> s.sources[i].author == u)
      && (up.pc.sourceCreated ==> s.sources[i].game == up.pc.game && s.sources[i].primary == up.pc.created)
  {
    assert Inv(EMPTY);
    hide FingerprintOf, IsChess, Fold, Legal, Exec, Tables, UpsertOk, CreatorOk;
    RunInv(EMPTY, steps);
    RecordsRun(EMPTY, steps);
    var s := Exec(EMPTY, steps);
    var up := s.upserts[u];
    if up.pc.sourceCreated {
      i := AttachersAreAuthors(s, u);
      assert RowOk(s.upserts, s.sources[i]);
      OwnRowRecords(s.sources[i], up);
    } else {
      i :| 0 <= i < |s.sources| && Covers(s.sources[i], up.tenant, up.pc.game, up.source);
      assert RowOk(s.upserts, s.sources[i]);
    }
  }

  lemma OwnRowRecords(p: Provenance, up: Upsert)
    requires up.pc.Done? && p.tenant == up.tenant && p.source == up.source && p.game == up.pc.game
    ensures Covers(p, up.tenant, up.pc.game, up.source)
  {}

  /** An upsert fails exactly when, looking again after a refused insert, it finds no live row with its
      fingerprint.  When nobody steps in between, that is exactly when its provider id is taken by another live
      game. */
  lemma FailsExactlyWhen(s: State, u: nat)
    requires Enabled(s, Run(u))
    ensures var up := s.upserts[u];
      var stamp := FingerprintOf(up.fen, up.moves, up.fields);
      var live := exists g :: g in s.games && IsLive(g, up.tenant, stamp);
      var taken := exists g :: g in s.games && IdTaken(g, up);
      && (NextPc(s, u, up) == Failed <==> up.pc.Reload? && !live)
      && (up.pc.Insert? ==> (NextPc(s, u, up) == Reload <==> live || taken))
      && (up.pc.Insert? && Enabled(Next(s, Run(u)), Run(u)) ==>
            (Next(Next(s, Run(u)), Run(u)).upserts[u].pc == Failed <==> !live && taken))
  {
    hide FingerprintOf, GameFits, NewGame, SourceExists, SourceFits;
    var up := s.upserts[u];
    RefusedExactlyWhen(s.games, u, up);
    var stamp := FingerprintOf(up.fen, up.moves, up.fields);
    LiveExactlyWhenFound(s.games, up.tenant, stamp);
  }

  lemma LiveExactlyWhenFound(games: seq<Game>, tenant: nat, stamp: string)
    ensures FindLive(games, tenant, stamp).Some? <==> exists g :: g in games && IsLive(g, tenant, stamp)
  {
    var found := FindLive(games, tenant, stamp);
    if found.Some? { assert games[found.value] in games; }
  }

  // ---- Failures over whole runs ----

  /** A live row of the tenant with the upsert's fingerprint. */
  predicate SameGame(g: Game, up: Upsert) {
    g.live && g.tenant == up.tenant && g.fingerprint == FingerprintOf(up.fen, up.moves, up.fields)
  }

  /** Such a row, or a live one with its provider and external id. */
  predicate InTheWay(g: Game, up: Upsert) {
    SameGame(g, up)
    || (g.live && g.tenant == up.tenant && g.source.provider == up.source.provider
        && g.source.external == up.source.external && up.source.external != None)
  }

  lemma RefusedMeansInTheWay(games: seq<Game>, u: nat, up: Upsert)
    ensures !GameFits(games, NewGame(up, u)) <==> exists i :: 0 <= i < |games| && InTheWay(games[i], up)
    ensures FindLive(games, up.tenant, FingerprintOf(up.fen, up.moves, up.fields)).None? <==>
      forall i :: 0 <= i < |games| ==> !SameGame(games[i], up)
  {
    hide FingerprintOf, GameFits;
    RefusedExactlyWhen(games, u, up);
    if !GameFits(games, NewGame(up, u)) {
      var g :| g in games && InTheWay(g, up);
      var i :| 0 <= i < |games| && games[i] == g;
      assert InTheWay(games[i], up);
    }
    if i :| 0 <= i < |games| && InTheWay(games[i], up) { assert games[i] in games; }
    var found := FindLive(games, up.tenant, FingerprintOf(up.fen, up.moves, up.fields));
    if found.Some? { assert SameGame(games[found.value], up); }
  }

  /** At step `k` upsert `u` was refused its insert, or found no row when it looked again. */
  predicate RefusedAt(steps: seq<Step>, k: int, u: nat)
    requires Legal(EMPTY, steps)
  {
    0 <= k < |steps| && steps[k] == Run(u)
    && LegalPrefix(steps, k)
    && var s := Exec(EMPTY, steps[..k]);
       && u in s.upserts && s.upserts[u].pc.Insert?
       && exists i :: 0 <= i < |s.games| && InTheWay(s.games[i], s.upserts[u])
  }

  predicate LostAt(steps: seq<Step>, k: int, u: nat)
    requires Legal(EMPTY, steps)
  {
    0 <= k < |steps| && steps[k] == Run(u)
    && LegalPrefix(steps, k)
    && var s := Exec(EMPTY, steps[..k]);
       && u in s.upserts && s.upserts[u].pc.Reload?
       && forall i :: 0 <= i < |s.games| ==> !SameGame(s.games[i], s.upserts[u])
  }

  predicate LegalPrefix(steps: seq<Step>, k: nat)
    requires k <= |steps|
  {
    Legal(EMPTY, steps[..k])
  }

  lemma {:induction false} PrefixIsLegal(s: State, steps: seq<Step>, k: nat)
    requires Legal(s, steps) && k <= |steps|
    ensures Legal(s, steps[..k]) && Legal(Exec(s, steps[..k]), steps[k..])
    ensures Exec(s, steps) == Exec(Exec(s, steps[..k]), steps[k..])
    decreases |steps|
  {
    hide Next, Enabled;
    if k > 0 {
      PrefixIsLegal(Next(s, steps[0]), steps[1..], k - 1);
      assert steps[..k][1..] == steps[1..][..k - 1] && steps[k..] == steps[1..][k - 1..];
    } else {
      assert steps[0..] == steps;
    }
  }

  lemma LastStep(steps: seq<Step>)
    requires Legal(EMPTY, steps) && |steps| > 0
    ensures var n := |steps| - 1;
      && Legal(EMPTY, steps[..n]) && Enabled(Exec(EMPTY, steps[..n]), steps[n])
      && Exec(EMPTY, steps) == Next(Exec(EMPTY, steps[..n]), steps[n])
  {
    hide Next, Enabled;
    var n := |steps| - 1;
    PrefixIsLegal(EMPTY, steps, n);
    assert steps[n..] == [steps[n]] && steps[n..][1..] == [];
  }

  /** What a run holds at a moment it holds ever after. */
  lemma MomentsStay(steps: seq<Step>, k: int, u: nat)
    requires |steps| > 0 && Legal(EMPTY, steps) && Legal(EMPTY, steps[..|steps| - 1])
    ensures RefusedAt(steps[..|steps| - 1], k, u) ==> RefusedAt(steps, k, u)
  {
    hide Legal, Exec, GameFits, FindLive;
    var init := steps[..|steps| - 1];
    if 0 <= k < |init| { assert init[..k] == steps[..k]; }
  }

  ghost predicate Refused(steps: seq<Step>, u: nat)
    requires Legal(EMPTY, steps)
  {
    exists j :: RefusedAt(steps, j, u)
  }

  lemma {:induction false} ReloadMeansRefused(steps: seq<Step>, u: nat)
    requires Legal(EMPTY, steps) && u in Exec(EMPTY, steps).upserts && Exec(EMPTY, steps).upserts[u].pc.Reload?
    ensures Refused(steps, u)
  {
    hide Legal, Exec, GameFits, FindLive, SourceExists, SourceFits, NewGame, NextGames, NextSources, FingerprintOf;
    SomeSteps(steps, u);
    var n := |steps| - 1;
    LastStep(steps);
    if Exec(EMPTY, steps[..n]).upserts[u].pc.Reload? {
      ReloadMeansRefused(steps[..n], u);
      var j :| RefusedAt(steps[..n], j, u);
      MomentsStay(steps, j, u);
    } else {
      var s := Exec(EMPTY, steps[..n]);
      RefusedMeansInTheWay(s.games, u, s.upserts[u]);
      hide InTheWay;
      assert RefusedAt(steps, n, u);
    }
  }

  lemma SomeSteps(steps: seq<Step>, u: nat)
    requires Legal(EMPTY, steps) && u in Exec(EMPTY, steps).upserts
    ensures |steps| > 0
  {}

  /** Over every run: an upsert that ends failed was refused its insert at one moment, the fingerprint live or the
      provider id taken, and found no live row with its fingerprint at a later one. */
  lemma {:induction false} FailedMeansRefusedAndLost(steps: seq<Step>, u: nat) returns (j: nat, k: nat)
    requires Legal(EMPTY, steps) && u in Exec(EMPTY, steps).upserts && Exec(EMPTY, steps).upserts[u].pc.Failed?
    ensures j < k && RefusedAt(steps, j, u) && LostAt(steps, k, u)
  {
    hide Legal, Exec, GameFits, FindLive, SourceExists, SourceFits, NewGame, NextGames, NextSources, FingerprintOf;
    SomeSteps(steps, u);
    var n := |steps| - 1;
    LastStep(steps);
    var init := steps[..n];
    if Exec(EMPTY, init).upserts[u].pc.Failed? {
      j, k := FailedMeansRefusedAndLost(init, u);
      MomentsStay(steps, j, u);
      LossStays(steps, k, u);
    } else {
      ReloadMeansRefused(init, u);
      j :| RefusedAt(init, j, u);
      MomentsStay(steps, j, u);
      var s := Exec(EMPTY, init);
      RefusedMeansInTheWay(s.games, u, s.upserts[u]);
      k := n;
    }
  }

  lemma LossStays(steps: seq<Step>, k: int, u: nat)
    requires |steps| > 0 && Legal(EMPTY, steps) && Legal(EMPTY, steps[..|steps| - 1])
    ensures LostAt(steps[..|steps| - 1], k, u) ==> LostAt(steps, k, u)
  {
    hide Legal, Exec, GameFits, FindLive, FingerprintOf;
    var init := steps[..|steps| - 1];
    if 0 <= k < |init| { assert init[..k] == steps[..k]; }
  }
}
