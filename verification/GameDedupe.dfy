/** `ChessGameDedupeService.upsert_game`: one live row for each fingerprint, one provenance row for each
    sighting, with upserts racing against each other.

    The unique indexes guard every insert: a violating insert fails and changes nothing. */
module GameDedupe {
  import opened Wrappers
  import opened Fingerprint

  /** The nullable catalog fields `_enrich_sparse_fields` fills in. */
  datatype Field =
    | WhitePlayer | BlackPlayer | WhiteRating | BlackRating | Event | Site | Round | GameDate | Year
    | Result | Eco | Opening | Variation | FinalFen

  /** A row's catalog fields; a missing key is a NULL. */
  type Fields = map<Field, string>

  datatype Source = Source(provider: string, external: Option<string>, name: Option<string>, index: Option<string>)

  /** `creator` and `sightings` are history: the upsert that inserted the row, and the fields of every
      sighting that has reached it, in order. */
  datatype Game = Game(
    tenant: nat, fen: string, moves: seq<string>, fingerprint: string, live: bool, fields: Fields, source: Source,
    creator: nat, sightings: seq<Fields>)

  /** A provenance row; `author` is the upsert that inserted it. */
  datatype Provenance = Provenance(tenant: nat, game: nat, source: Source, primary: bool, author: nat)

  datatype Pc =
    | Lookup
    | Insert
    | Reload
    | Enrich(game: nat)
    | Attach(game: nat, created: bool)
    | InsertSource(game: nat, created: bool)
    | Done(game: nat, created: bool, sourceCreated: bool)
    | Failed

  datatype Upsert = Upsert(tenant: nat, fen: string, moves: seq<string>, fields: Fields, source: Source, pc: Pc)

  datatype State = State(games: seq<Game>, sources: seq<Provenance>, upserts: map<nat, Upsert>)

  datatype Step =
    | Arrive(u: nat, tenant: nat, fen: string, moves: seq<string>, fields: Fields, source: Source)
    | Run(u: nat)
    | SoftDelete(game: nat)

  // ---- Tables and indexes ----

  function ResultOf(fields: Fields): Option<string> {
    if Result in fields then Some(fields[Result]) else None
  }

  function FingerprintOf(fen: string, moves: seq<string>, fields: Fields): string {
    GameFingerprint(fen, moves, ResultOf(fields))
  }

  /** Two live rows of one tenant clash on the fingerprint, or on provider and external id. */
  predicate Clash(a: Game, b: Game) {
    && a.live && b.live && a.tenant == b.tenant
    && (a.fingerprint == b.fingerprint
        || (a.source.external.Some? && a.source.provider == b.source.provider && a.source.external == b.source.external))
  }

  predicate SourcesClash(a: Provenance, b: Provenance) {
    a.tenant == b.tenant && a.source.external.Some? && a.source.provider == b.source.provider
    && a.source.external == b.source.external
  }

  ghost predicate GamesUnique(games: seq<Game>) {
    forall i, j :: 0 <= i < j < |games| ==> !Clash(games[i], games[j])
  }

  ghost predicate SourcesUnique(sources: seq<Provenance>) {
    forall i, j :: 0 <= i < j < |sources| ==> !SourcesClash(sources[i], sources[j])
  }

  predicate GameFits(games: seq<Game>, g: Game) {
    forall i :: 0 <= i < |games| ==> !Clash(games[i], g)
  }

  predicate SourceFits(sources: seq<Provenance>, p: Provenance) {
    forall i :: 0 <= i < |sources| ==> !SourcesClash(sources[i], p)
  }

  predicate IsLive(g: Game, tenant: nat, fingerprint: string) {
    g.live && g.tenant == tenant && g.fingerprint == fingerprint
  }

  /** `get_by_fingerprint`. */
  function FindLive(games: seq<Game>, tenant: nat, fingerprint: string): (hit: Option<nat>)
    ensures hit.Some? ==> hit.value < |games| && var g := games[hit.value];
      g.live && g.tenant == tenant && g.fingerprint == fingerprint
    ensures hit.None? ==> forall i :: 0 <= i < |games| ==>
      !games[i].live || games[i].tenant != tenant || games[i].fingerprint != fingerprint
  {
    if |games| == 0 then None
    else if IsLive(games[|games| - 1], tenant, fingerprint) then Some(|games| - 1)
    else FindLive(games[..|games| - 1], tenant, fingerprint)
  }

  /** Is this provenance row the sighting asked about?  With an external id the game does not matter. */
  predicate SameSighting(p: Provenance, tenant: nat, game: nat, source: Source) {
    && p.tenant == tenant && p.source.provider == source.provider
    && if Truthy(source.external) then p.source.external == source.external
       else
         && p.game == game && p.source.external.None?
         && (source.name.Some? ==> p.source.name == source.name)
         && (source.index.Some? ==> p.source.index == source.index)
  }

  predicate SourceExists(sources: seq<Provenance>, tenant: nat, game: nat, source: Source) {
    exists i :: 0 <= i < |sources| && SameSighting(sources[i], tenant, game, source)
  }

  /** In the fields: a row of the tenant and the provider with the same external id, or, for a sighting without a
      usable id, a row of the same game without one whose name and index agree as far as the sighting gives them. */
  predicate Covers(p: Provenance, tenant: nat, game: nat, source: Source) {
    && p.tenant == tenant && p.source.provider == source.provider
    && ((source.external.Some? && p.source.external == source.external)
        || ((source.external == None || source.external == Some(""))
            && p.game == game && p.source.external == None
            && (source.name == None || p.source.name == source.name)
            && (source.index == None || p.source.index == source.index)))
  }

  /** A sighting gets no row of its own, by the look before the insert or by the index, exactly when a row covers
      it. */
  lemma NoRowExactlyWhenCovered(sources: seq<Provenance>, p: Provenance)
    ensures SourceExists(sources, p.tenant, p.game, p.source) || !SourceFits(sources, p) <==>
      exists i :: 0 <= i < |sources| && Covers(sources[i], p.tenant, p.game, p.source)
  {
    forall i | 0 <= i < |sources|
      ensures Covers(sources[i], p.tenant, p.game, p.source) <==>
        SameSighting(sources[i], p.tenant, p.game, p.source) || SourcesClash(sources[i], p)
    {}
    hide Covers, SameSighting, SourcesClash;
    if i :| 0 <= i < |sources| && Covers(sources[i], p.tenant, p.game, p.source) {
      assert SameSighting(sources[i], p.tenant, p.game, p.source) || SourcesClash(sources[i], p);
    }
  }

  /** Blank fields are filled in; what is there stays. */
  function Enriched(target: Fields, incoming: Fields): Fields {
    incoming + target
  }

  function NewGame(up: Upsert, u: nat): Game {
    Game(up.tenant, up.fen, up.moves, FingerprintOf(up.fen, up.moves, up.fields), true, up.fields, up.source,
         u, [up.fields])
  }

  function Sighted(g: Game, fields: Fields): Game {
    g.(fields := Enriched(g.fields, fields), sightings := g.sightings + [fields])
  }

  // ---- One step ----

  predicate Enabled(s: State, step: Step) {
    match step
    case Arrive(u, _, fen, moves, fields, _) => u !in s.upserts && IsChess(fen, moves, fields)
    case Run(u) => u in s.upserts && !s.upserts[u].pc.Done? && !s.upserts[u].pc.Failed?
    case SoftDelete(g) => g < |s.games|
  }

  /** What ingress hands over comes from a parsed game. */
  predicate IsChess(fen: string, moves: seq<string>, fields: Fields) {
    var i := IdentityOf(fen, moves, ResultOf(fields));
    ChessText(i.fen, i.moves)
  }

  function NextPc(s: State, u: nat, up: Upsert): Pc {
    var found := FindLive(s.games, up.tenant, FingerprintOf(up.fen, up.moves, up.fields));
    match up.pc
    case Lookup => if found.Some? then Enrich(found.value) else Insert
    case Insert => if GameFits(s.games, NewGame(up, u)) then Attach(|s.games|, true) else Reload
    case Reload => if found.Some? then Enrich(found.value) else Failed
    case Enrich(g) => Attach(g, false)
    case Attach(g, created) =>
      if SourceExists(s.sources, up.tenant, g, up.source) then Done(g, created, false) else InsertSource(g, created)
    case InsertSource(g, created) =>
      Done(g, created, SourceFits(s.sources, Provenance(up.tenant, g, up.source, created, u)))
    case _ => up.pc
  }

  function NextGames(games: seq<Game>, u: nat, up: Upsert): seq<Game> {
    match up.pc
    case Insert => if GameFits(games, NewGame(up, u)) then games + [NewGame(up, u)] else games
    case Enrich(g) => if g < |games| then games[g := Sighted(games[g], up.fields)] else games
    case _ => games
  }

  function NextSources(sources: seq<Provenance>, u: nat, up: Upsert): seq<Provenance> {
    match up.pc
    case InsertSource(g, created) =>
      var row := Provenance(up.tenant, g, up.source, created, u);
      if SourceFits(sources, row) then sources + [row] else sources
    case _ => sources
  }

  function Next(s: State, step: Step): State
    requires Enabled(s, step)
  {
    match step
    case Arrive(u, tenant, fen, moves, fields, source) =>
      s.(upserts := s.upserts[u := Upsert(tenant, fen, moves, fields, source, Lookup)])
    case Run(u) =>
      var up := s.upserts[u];
      State(NextGames(s.games, u, up), NextSources(s.sources, u, up), s.upserts[u := up.(pc := NextPc(s, u, up))])
    case SoftDelete(g) => s.(games := s.games[g := s.games[g].(live := false)])
  }

  predicate Legal(s: State, steps: seq<Step>)
    decreases |steps|
  {
    |steps| == 0 || (Enabled(s, steps[0]) && Legal(Next(s, steps[0]), steps[1..]))
  }

  function Exec(s: State, steps: seq<Step>): State
    requires Legal(s, steps)
    decreases |steps|
  {
    if |steps| == 0 then s else Exec(Next(s, steps[0]), steps[1..])
  }

  /** An upper bound on the steps an upsert has still to take. */
  function Rank(pc: Pc): nat {
    match pc
    case Lookup => 6
    case Insert => 5
    case Reload => 4
    case Enrich(_) => 3
    case Attach(_, _) => 2
    case InsertSource(_, _) => 1
    case _ => 0
  }

  lemma StepLowersRank(s: State, u: nat)
    requires Enabled(s, Run(u))
    ensures Rank(NextPc(s, u, s.upserts[u])) < Rank(s.upserts[u].pc)
  {
    hide FingerprintOf, FindLive, GameFits, SourceExists, SourceFits, NewGame;
  }

  function StepsOf(steps: seq<Step>, u: nat): nat {
    if |steps| == 0 then 0 else (if steps[0] == Run(u) then 1 else 0) + StepsOf(steps[1..], u)
  }

  /** Whatever the others do, an upsert takes at most six steps, and can take one as long as it has neither
      finished nor failed. */
  lemma {:induction false} UpsertsAreBounded(s: State, steps: seq<Step>, u: nat)
    requires Legal(s, steps) && u in s.upserts
    ensures var s' := Exec(s, steps);
      && u in s'.upserts && StepsOf(steps, u) + Rank(s'.upserts[u].pc) <= Rank(s.upserts[u].pc) <= 6
      && (Enabled(s', Run(u)) <==> !s'.upserts[u].pc.Done? && !s'.upserts[u].pc.Failed?)
    decreases |steps|
  {
    hide NextPc, NextGames, NextSources, IsChess;
    if |steps| != 0 {
      if steps[0] == Run(u) { StepLowersRank(s, u); }
      UpsertsAreBounded(Next(s, steps[0]), steps[1..], u);
    }
  }

  // ---- The sequential service ----

  /** Where an upsert ends that nobody interferes with, and the tables it leaves. */
  datatype Ending = Ending(pc: Pc, games: seq<Game>, sources: seq<Provenance>)

  function AttachAlone(
      games: seq<Game>, sources: seq<Provenance>, u: nat, up: Upsert, g: nat, created: bool): Ending
  {
    var row := Provenance(up.tenant, g, up.source, created, u);
    if SourceExists(sources, up.tenant, g, up.source) || !SourceFits(sources, row) then
      Ending(Done(g, created, false), games, sources)
    else Ending(Done(g, created, true), games, sources + [row])
  }

  function UpsertAlone(games: seq<Game>, sources: seq<Provenance>, u: nat, up: Upsert): Ending {
    var known := FindLive(games, up.tenant, FingerprintOf(up.fen, up.moves, up.fields));
    if known.Some? then
      AttachAlone(games[known.value := Sighted(games[known.value], up.fields)], sources, u, up, known.value, false)
    else if GameFits(games, NewGame(up, u)) then
      AttachAlone(games + [NewGame(up, u)], sources, u, up, |games|, true)
    else Ending(Failed, games, sources)
  }

  /** The upsert steps, and nobody else. */
  function Solo(s: State, u: nat, fuel: nat): State
    requires u in s.upserts
    decreases fuel
  {
    if fuel == 0 || !Enabled(s, Run(u)) then s else Solo(Next(s, Run(u)), u, fuel - 1)
  }

  /** Left alone, an upsert of the protocol does what the sequential one does, in at most five steps. */
  lemma SoloIsUpsertAlone(s: State, u: nat)
    requires u in s.upserts && s.upserts[u].pc.Lookup?
    ensures var up := s.upserts[u];
      var end := UpsertAlone(s.games, s.sources, u, up);
      Solo(s, u, 5) == State(end.games, end.sources, s.upserts[u := up.(pc := end.pc)])
  {
    hide FingerprintOf, FindLive, GameFits, SourceFits, SourceExists, Sighted, NewGame, Solo, AttachAlone;
    var up := s.upserts[u];
    var s1 := SoloStep(s, u, 5);
    var s2 := SoloStep(s1, u, 4);
    SameRow(up, s1.upserts[u].pc, u);
    if s2.upserts[u].pc.Attach? {
      SoloAttach(s2, u);
      SameAttach(s2, u, up);
    } else {
      var s3 := SoloStep(s2, u, 3);
      SoloStops(s3, u, 2);
    }
  }

  lemma SoloStep(s: State, u: nat, fuel: nat) returns (s': State)
    requires Enabled(s, Run(u)) && fuel > 0
    ensures s' == Next(s, Run(u)) && Solo(s, u, fuel) == Solo(s', u, fuel - 1)
  {
    hide Next;
    s' := Next(s, Run(u));
  }

  lemma SoloStops(s: State, u: nat, fuel: nat)
    requires u in s.upserts && !Enabled(s, Run(u))
    ensures Solo(s, u, fuel) == s
  {}

  lemma SameRow(up: Upsert, pc: Pc, u: nat)
    ensures NewGame(up.(pc := pc), u) == NewGame(up, u)
  {}

  lemma SameAttach(s: State, u: nat, up: Upsert)
    requires u in s.upserts && s.upserts[u] == up.(pc := s.upserts[u].pc) && s.upserts[u].pc.Attach?
    ensures var pc := s.upserts[u].pc;
      AttachAlone(s.games, s.sources, u, s.upserts[u], pc.game, pc.created)
        == AttachAlone(s.games, s.sources, u, up, pc.game, pc.created)
  {}

  lemma SoloAttach(s: State, u: nat)
    requires u in s.upserts && s.upserts[u].pc.Attach?
    ensures var up := s.upserts[u];
      var end := AttachAlone(s.games, s.sources, u, up, up.pc.game, up.pc.created);
      Solo(s, u, 3) == State(end.games, end.sources, s.upserts[u := up.(pc := end.pc)])
  {
    hide FingerprintOf, FindLive, GameFits, SourceFits, SourceExists, NewGame, Solo;
    var s1 := SoloStep(s, u, 3);
    if s1.upserts[u].pc.Done? {
      SoloStops(s1, u, 2);
    } else {
      var s2 := SoloStep(s1, u, 2);
      SoloStops(s2, u, 1);
    }
  }

  /** The field names in the order the source lists them; `final_fen` is treated last. */
  const FIELDS := [WhitePlayer, BlackPlayer, WhiteRating, BlackRating, Event, Site, Round, GameDate, Year,
                   Result, Eco, Opening, Variation, FinalFen]

  lemma FieldsAreAll(f: Field)
    ensures f in FIELDS
  {
    assert FIELDS[0] == WhitePlayer && FIELDS[1] == BlackPlayer && FIELDS[2] == WhiteRating && FIELDS[3] == BlackRating;
    assert FIELDS[4] == Event && FIELDS[5] == Site && FIELDS[6] == Round && FIELDS[7] == GameDate && FIELDS[8] == Year;
    assert FIELDS[9] == Result && FIELDS[10] == Eco && FIELDS[11] == Opening && FIELDS[12] == Variation;
    assert FIELDS[13] == FinalFen;
  }

  /** The blank fields among `names`, filled in one by one. */
  function Fill(names: seq<Field>, target: Fields, incoming: Fields): Fields {
    if |names| == 0 then target
    else
      var before := Fill(names[..|names| - 1], target, incoming);
      var name := names[|names| - 1];
      if name !in before && name in incoming then before[name := incoming[name]] else before
  }

  /** Filled are exactly the blank fields among the names; what is there stays. */
  lemma {:induction false} FillMeans(names: seq<Field>, target: Fields, incoming: Fields, f: Field)
    ensures var filled := Fill(names, target, incoming);
      && (f in filled <==> f in target || (f in names && f in incoming))
      && (f in filled ==> filled[f] == if f in target then target[f] else incoming[f])
  {
    if |names| > 0 {
      var n := |names| - 1;
      FillMeans(names[..n], target, incoming, f);
      assert names == names[..n] + [names[n]];
    }
  }

  /** The loop over the field names. */
  method FillBlanks(names: seq<Field>, target: Fields, incoming: Fields) returns (fields: Fields)
    ensures fields == Fill(names, target, incoming)
  {
    fields := target;
    for i := 0 to |names|
      invariant fields == Fill(names[..i], target, incoming)
    {
      assert names[..i + 1][..i] == names[..i];
      if names[i] !in fields && names[i] in incoming {
        fields := fields[names[i] := incoming[names[i]]];
      }
    }
    assert names[..|names|] == names;
  }

  method EnrichSparseFields(target: Fields, incoming: Fields) returns (fields: Fields)
    ensures fields == Enriched(target, incoming)
  {
    fields := FillBlanks(FIELDS, target, incoming);
    hide Fill;
    forall f: Field ensures (f in fields <==> f in Enriched(target, incoming)) && (f in fields ==> fields[f] == Enriched(target, incoming)[f]) {
      FieldsAreAll(f);
      FillMeans(FIELDS, target, incoming, f);
    }
  }

  /** A live game of the tenant already has the upsert's provider and external id. */
  predicate IdTaken(g: Game, up: Upsert) {
    g.live && g.tenant == up.tenant && up.source.external.Some? && g.source.provider == up.source.provider
    && g.source.external == up.source.external
  }

  /** The games index refuses an insert exactly when the fingerprint is live already or the id is taken. */
  lemma RefusedExactlyWhen(games: seq<Game>, u: nat, up: Upsert)
    ensures !GameFits(games, NewGame(up, u)) <==>
      exists g :: g in games && g.live && g.tenant == up.tenant
        && (g.fingerprint == FingerprintOf(up.fen, up.moves, up.fields)
            || (g.source.provider == up.source.provider && g.source.external == up.source.external != None))
  {
    hide FingerprintOf;
    var row := NewGame(up, u);
    forall g ensures Clash(g, row) <==> IsLive(g, up.tenant, row.fingerprint) || IdTaken(g, up) {}
    if !GameFits(games, row) {
      var i :| 0 <= i < |games| && Clash(games[i], row);
      assert games[i] in games;
    }
  }

  lemma RefusedById(games: seq<Game>, u: nat, up: Upsert)
    requires FindLive(games, up.tenant, FingerprintOf(up.fen, up.moves, up.fields)).None?
    requires !GameFits(games, NewGame(up, u))
    ensures exists g :: g in games && IdTaken(g, up)
  {
    hide FingerprintOf, FindLive, GameFits;
    RefusedExactlyWhen(games, u, up);
  }

  /** The sequential upsert, in the rows a caller sees: the live row of the fingerprint is enriched and nothing else
      changes, a new game is inserted as it was sighted, or, where a live game has its provider and external id, the
      upsert fails and changes nothing. */
  lemma UpsertInFields(games: seq<Game>, sources: seq<Provenance>, u: nat, up: Upsert, k: nat, f: Field)
    requires GamesUnique(games) && k < |games|
    ensures var stamp := FingerprintOf(up.fen, up.moves, up.fields);
      var end := UpsertAlone(games, sources, u, up);
      var live := exists g :: g in games && g.live && g.tenant == up.tenant && g.fingerprint == stamp;
      var taken := exists g ::
        && g in games && g.live && g.tenant == up.tenant
        && g.source.provider == up.source.provider && g.source.external == up.source.external != None;
      var row := games[k];
      && (row.live && row.tenant == up.tenant && row.fingerprint == stamp ==>
            && end.pc.Done? && end.pc.game == k && !end.pc.created && |end.games| == |games|
            && (forall i :: 0 <= i < |games| && i != k ==> end.games[i] == games[i])
            && var row' := end.games[k];
               && row' == row.(fields := row'.fields, sightings := row.sightings + [up.fields])
               && (f in row'.fields <==> f in row.fields || f in up.fields)
               && (f in row'.fields ==> row'.fields[f] == if f in row.fields then row.fields[f] else up.fields[f]))
      && (!live && !taken ==>
            && end.pc.Done? && end.pc.game == |games| && end.pc.created
            && end.games == games + [Game(up.tenant, up.fen, up.moves, stamp, true, up.fields, up.source, u, [up.fields])])
      && (!live && taken ==> end == Ending(Failed, games, sources))
  {
    hide FingerprintOf, GameFits, SourceExists, SourceFits;
    RefusedExactlyWhen(games, u, up);
    var found := FindLive(games, up.tenant, FingerprintOf(up.fen, up.moves, up.fields));
    if found.Some? {
      assert games[found.value] in games;
      if found.value < k { assert !Clash(games[found.value], games[k]); }
      if found.value > k { assert !Clash(games[k], games[found.value]); }
    }
  }

  /** And its provenance row: added exactly when no row covers the sighting, and primary exactly when the upsert
      inserted the game. */
  lemma AttachInFields(games: seq<Game>, sources: seq<Provenance>, u: nat, up: Upsert)
    ensures var end := UpsertAlone(games, sources, u, up);
      end.pc.Done? ==>
        var row := Provenance(up.tenant, end.pc.game, up.source, end.pc.created, u);
        && (end.pc.sourceCreated <==>
              forall i :: 0 <= i < |sources| ==> !Covers(sources[i], up.tenant, end.pc.game, up.source))
        && end.sources == if end.pc.sourceCreated then sources + [row] else sources
  {
    hide FingerprintOf, GameFits, SourceExists, SourceFits, FindLive, Covers;
    var end := UpsertAlone(games, sources, u, up);
    if end.pc.Done? {
      NoRowExactlyWhenCovered(sources, Provenance(up.tenant, end.pc.game, up.source, end.pc.created, u));
    }
  }

  /** The service over the tables, one upsert at a time. */
  class Service {
    var games: seq<Game>
    var sources: seq<Provenance>

    constructor ()
      ensures games == [] && sources == [] && GamesUnique(games) && SourcesUnique(sources)
    {
      games, sources := [], [];
    }

    method AttachSource(u: nat, tenant: nat, g: nat, source: Source, primary: bool) returns (created: bool)
      requires SourcesUnique(sources)
      modifies this`sources
      ensures SourcesUnique(sources)
      ensures created <==> forall i :: 0 <= i < |old(sources)| ==> !Covers(old(sources)[i], tenant, g, source)
      ensures sources == if created then old(sources) + [Provenance(tenant, g, source, primary, u)] else old(sources)
    {
      NoRowExactlyWhenCovered(sources, Provenance(tenant, g, source, primary, u));
      if SourceExists(sources, tenant, g, source) { return false; }
      var row := Provenance(tenant, g, source, primary, u);
      if !SourceFits(sources, row) { return false; }
      sources := sources + [row];
      created := true;
    }

    /** Alone, an upsert finds its game or inserts it; it raises only when another live game already has its
        provider and external id. */
    method UpsertGame(u: nat, up: Upsert) returns (raised: bool, game: nat, created: bool, sourceCreated: bool)
      requires GamesUnique(games) && SourcesUnique(sources)
      modifies this
      ensures GamesUnique(games) && SourcesUnique(sources)
      ensures Ending(if raised then Failed else Done(game, created, sourceCreated), games, sources)
        == UpsertAlone(old(games), old(sources), u, up)
      ensures !raised ==>
        && game < |games| && games[game].live && games[game].tenant == up.tenant
        && games[game].fingerprint == FingerprintOf(up.fen, up.moves, up.fields)
      ensures raised ==> exists g :: g in games && IdTaken(g, up)
    {
      raised, created, sourceCreated := false, false, false;
      var existing := FindLive(games, up.tenant, FingerprintOf(up.fen, up.moves, up.fields));
      if existing.Some? {
        game := existing.value;
        var row := games[game];
        var fields := EnrichSparseFields(row.fields, up.fields);
        games := games[game := row.(fields := fields, sightings := row.sightings + [up.fields])];
      } else {
        var row := NewGame(up, u);
        game := |games|;
        if !GameFits(games, row) {
          RefusedById(games, u, up);
          raised := true;
          return;
        }
        games := games + [row];
        created := true;
      }
      sourceCreated := AttachSource(u, up.tenant, game, up.source, created);
    }
  }
}
