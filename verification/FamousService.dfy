/** `FamousCatalogService.apply_to_tenant`: one curation pass over the rows of a tenant, in place. */
module FamousService {
  import opened Wrappers
  import opened FamousCatalog
  import Text

  class GameRow {
    const white: Option<string>
    const black: Option<string>
    const fingerprint: string
    const uciMoves: seq<string>
    var event: Option<string>
    var year: Option<int>
    var isFamous: bool
    var famousTitle: Option<string>
    var tags: seq<string>
    var meta: map<string, string>

    function View(): Game
      reads this
    {
      Game(white, black, event, year, fingerprint, uciMoves, isFamous, famousTitle, tags, meta)
    }

    constructor (g: Game)
      ensures View() == g
    {
      white, black, fingerprint, uciMoves := g.white, g.black, g.fingerprint, g.uciMoves;
      event, year, isFamous, famousTitle, tags, meta := g.event, g.year, g.isFamous, g.famousTitle, g.tags, g.meta;
    }

    /** Merges the entry's tags behind the ones already there. */
    method MergeTags(entry: Entry) returns (changed: bool)
      modifies this`tags
      ensures tags == Dedup(old(tags) + DesiredTags(entry))
      ensures changed <==> tags != old(tags)
    {
      var desired := entry.tags;
      if "famous" !in desired { desired := desired + ["famous"]; }
      if "catalog:" + entry.id !in desired { desired := desired + ["catalog:" + entry.id]; }
      var merged := Dedup(tags + desired);
      changed := merged != tags;
      tags := merged;
    }

    /** Stamps the entry's id, with its editorial note, unless it is stamped already. */
    method StampMeta(entry: Entry) returns (changed: bool)
      modifies this`meta
      ensures meta == CuratedMeta(old(meta), entry)
      ensures changed <==> meta != old(meta)
    {
      changed := CATALOG_ID !in meta || meta[CATALOG_ID] != entry.id;
      if changed {
        var stamped := meta[CATALOG_ID := entry.id];
        if entry.significance != "" { stamped := stamped[SIGNIFICANCE := Text.Strip(entry.significance)]; }
        assert stamped[CATALOG_ID] == entry.id;
        meta := stamped;
      }
    }

    /** Writes the entry into the row, field by field, and tells whether anything changed. */
    method ApplyFamousMetadata(entry: Entry) returns (changed: bool)
      modifies this
      ensures View() == Curated(old(View()), entry)
      ensures changed <==> View() != old(View())
    {
      hide Dedup, DesiredTags, CuratedMeta;
      changed := false;
      if !isFamous {
        isFamous := true;
        changed := true;
      }
      if famousTitle != Some(entry.title) {
        famousTitle := Some(entry.title);
        changed := true;
      }
      var retagged := MergeTags(entry);
      if Truthy(entry.event) && !Truthy(event) {
        event := entry.event;
        changed := true;
      }
      if entry.year != 0 && year.None? {
        year := Some(entry.year);
        changed := true;
      }
      var stamped := StampMeta(entry);
      changed := changed || retagged || stamped;
    }
  }

  datatype Report = Report(scanned: nat, matched: nat, updated: nat, skipped: nat)

  predicate IsMatched(catalog: seq<Entry>, minScore: int, g: Game) {
    Best(catalog, g, minScore).Some?
  }

  /** The report of a pass over `games`. */
  function ReportOf(catalog: seq<Entry>, minScore: int, dryRun: bool, games: seq<Game>): Report {
    if |games| == 0 then Report(0, 0, 0, 0)
    else
      var r := ReportOf(catalog, minScore, dryRun, games[..|games| - 1]);
      var g := games[|games| - 1];
      Report(r.scanned + 1,
             r.matched + (if IsMatched(catalog, minScore, g) then 1 else 0),
             r.updated + (if !dryRun && Pass(catalog, minScore, g) != g then 1 else 0),
             r.skipped + (if IsMatched(catalog, minScore, g) then 0 else 1))
  }

  function Views(rows: seq<GameRow>): seq<Game>
    reads rows
  {
    seq(|rows|, i requires 0 <= i < |rows| reads rows => rows[i].View())
  }

  /** One row: match it, and unless the run is dry write the match into it. */
  method CurateRow(catalog: seq<Entry>, minScore: int, dryRun: bool, row: GameRow) returns (matched: bool, updated: bool)
    modifies row
    ensures row.View() == if dryRun then old(row.View()) else Pass(catalog, minScore, old(row.View()))
    ensures matched == IsMatched(catalog, minScore, old(row.View()))
    ensures matched <==> exists e :: e in catalog && Reaches(Score(e, old(row.View())), minScore)
    ensures updated == (!dryRun && Pass(catalog, minScore, old(row.View())) != old(row.View()))
  {
    hide Best, Curated;
    updated := false;
    var best := BestFamousMatch(catalog, row.View(), minScore);
    matched := best.Some?;
    if matched && !dryRun { updated := row.ApplyFamousMetadata(catalog[best.value]); }
  }

  /** The report with one more game on it. */
  function Counted(r: Report, matched: bool, updated: bool): Report {
    Report(r.scanned + 1, r.matched + (if matched then 1 else 0), r.updated + (if updated then 1 else 0),
           r.skipped + (if matched then 0 else 1))
  }

  lemma ReportGrows(catalog: seq<Entry>, minScore: int, dryRun: bool, games: seq<Game>, i: nat)
    requires i < |games|
    ensures ReportOf(catalog, minScore, dryRun, games[..i + 1]) ==
      Counted(ReportOf(catalog, minScore, dryRun, games[..i]), IsMatched(catalog, minScore, games[i]),
              !dryRun && Pass(catalog, minScore, games[i]) != games[i])
  {
    hide IsMatched, Pass;
    assert games[..i + 1][..i] == games[..i];
  }

  /** A row after the pass. */
  function After(catalog: seq<Entry>, minScore: int, dryRun: bool, g: Game): Game {
    if dryRun then g else Pass(catalog, minScore, g)
  }

  /** One pass over distinct rows; a dry run reports the matches and touches nothing. */
  method ApplyToTenant(catalog: seq<Entry>, minScore: int, dryRun: bool, rows: seq<GameRow>) returns (report: Report)
    requires forall i, j :: 0 <= i < j < |rows| ==> rows[i] != rows[j]
    modifies rows
    ensures report == ReportOf(catalog, minScore, dryRun, old(Views(rows)))
    ensures forall i :: 0 <= i < |rows| ==>
      rows[i].View() == if dryRun then old(rows[i].View()) else Pass(catalog, minScore, old(rows[i].View()))
  {
    hide IsMatched, Pass, GameRow.View;
    report := Report(0, 0, 0, 0);
    ghost var before := Views(rows);
    for i := 0 to |rows|
      invariant report == ReportOf(catalog, minScore, dryRun, before[..i])
      invariant forall k :: 0 <= k < i ==> rows[k].View() == After(catalog, minScore, dryRun, before[k])
      invariant forall k :: i <= k < |rows| ==> rows[k].View() == before[k]
    {
      ReportGrows(catalog, minScore, dryRun, before, i);
      hide ReportOf, After;
      var matched, updated := CurateRow(catalog, minScore, dryRun, rows[i]);
      AfterIs(catalog, minScore, dryRun, before[i]);
      report := Counted(report, matched, updated);
    }
    assert before[..|rows|] == before;
  }

  lemma AfterIs(catalog: seq<Entry>, minScore: int, dryRun: bool, g: Game)
    ensures After(catalog, minScore, dryRun, g) == if dryRun then g else Pass(catalog, minScore, g)
  {}

  lemma {:induction false} NothingUpdated(catalog: seq<Entry>, minScore: int, games: seq<Game>)
    ensures ReportOf(catalog, minScore, false, games).updated == 0 <==>
      forall i :: 0 <= i < |games| ==> Pass(catalog, minScore, games[i]) == games[i]
  {
    hide Pass, IsMatched;
    if |games| != 0 {
      NothingUpdated(catalog, minScore, games[..|games| - 1]);
    }
  }

  /** Main result.  Running the service again over games that settle reports nothing updated, and without
      repeated ids it does so only then; every game whose winner did not win by exact fingerprint settles. */
  lemma SecondRunUpdatesNothing(catalog: seq<Entry>, minScore: int, games: seq<Game>, after: seq<Game>)
    requires |after| == |games|
    requires forall i :: 0 <= i < |games| ==> after[i] == Pass(catalog, minScore, games[i])
    ensures (forall i :: 0 <= i < |games| ==> Settles(catalog, minScore, games[i])) ==>
      ReportOf(catalog, minScore, false, after).updated == 0
    ensures DistinctIds(catalog) && ReportOf(catalog, minScore, false, after).updated == 0 ==>
      forall i :: 0 <= i < |games| ==> Settles(catalog, minScore, games[i])
  {
    hide Pass, Settles, ReportOf;
    NothingUpdated(catalog, minScore, after);
    forall i | 0 <= i < |games|
      ensures Settles(catalog, minScore, games[i]) ==> Pass(catalog, minScore, after[i]) == after[i]
      ensures DistinctIds(catalog) && Pass(catalog, minScore, after[i]) == after[i] ==>
        Settles(catalog, minScore, games[i])
    {
      SecondPassIsNoop(catalog, minScore, games[i]);
    }
  }

  /** Every scanned game is either matched or skipped. */
  lemma {:induction false} ReportBalances(catalog: seq<Entry>, minScore: int, dryRun: bool, games: seq<Game>)
    ensures var r := ReportOf(catalog, minScore, dryRun, games);
      r.scanned == |games| && r.matched + r.skipped == r.scanned && r.updated <= r.matched && (dryRun ==> r.updated == 0)
  {
    if |games| != 0 { ReportBalances(catalog, minScore, dryRun, games[..|games| - 1]); }
  }
}
