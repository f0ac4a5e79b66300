/** What the name and event comparison of the famous catalog accepts, said in words of letters and digits. */
module FamousNames {
  import opened Wrappers
  import opened Text
  import opened Fingerprint
  import opened CleanText
  import opened FamousCatalog

  // ---- Normalisation: the words of a name, joined by single blanks ----

  predicate LetterOrDigit(c: char) {
    'a' <= c <= 'z' || '0' <= c <= '9'
  }

  /** The maximal runs of letters and digits; `current` is the run the text continues. */
  function Runs(text: string, current: string): seq<string> {
    var done := if current == "" then [] else [current];
    if |text| == 0 then done
    else if LetterOrDigit(text[0]) then Runs(text[1..], current + [text[0]])
    else done + Runs(text[1..], "")
  }

  /** The words of a name. */
  function WordsOf(name: string): seq<string> {
    Runs(LowerCase(name), "")
  }

  predicate Plain(word: string) {
    word != "" && forall i :: 0 <= i < |word| ==> LetterOrDigit(word[i])
  }

  lemma {:induction false} RunsArePlain(text: string, current: string)
    requires current == "" || Plain(current)
    ensures forall w :: w in Runs(text, current) ==> Plain(w)
  {
    if |text| > 0 {
      RunsArePlain(text[1..], if LetterOrDigit(text[0]) then current + [text[0]] else "");
    }
  }

  lemma PlainHasNoBlank(word: string)
    requires Plain(word)
    ensures RStrip(word) == word && LStrip(word) == word
  {}

  lemma {:induction false} RStripOfBoth(a: string, b: string)
    ensures RStrip(a + b) == if RStrip(b) == "" then RStrip(a) else a + RStrip(b)
  {
    if |b| == 0 {
      assert a + b == a;
    } else if IsSpace(b[|b| - 1]) {
      assert (a + b)[..|a + b| - 1] == a + b[..|b| - 1];
      RStripOfBoth(a, b[..|b| - 1]);
    }
  }

  lemma PlainJoin(words: seq<string>)
    requires forall w :: w in words ==> Plain(w)
    ensures Join(words) == "" <==> words == []
  {
    if |words| > 0 { assert words[0] in words; }
  }

  lemma CollapseFirst(text: string, gap: bool)
    requires |text| > 0
    ensures Collapse(text, gap) ==
      if LetterOrDigit(text[0]) then [text[0]] + Collapse(text[1..], false)
      else if gap then Collapse(text[1..], true) else " " + Collapse(text[1..], true)
  {
    if !LetterOrDigit(text[0]) && gap { assert "" + Collapse(text[1..], true) == Collapse(text[1..], true); }
  }

  lemma RunsFirst(text: string, current: string)
    requires |text| > 0
    ensures Runs(text, current) ==
      if LetterOrDigit(text[0]) then Runs(text[1..], current + [text[0]])
      else if current == "" then Runs(text[1..], "") else [current] + Runs(text[1..], "")
  {}

  lemma JoinFirst(word: string, words: seq<string>)
    ensures Join([word] + words) == if words == [] then word else word + " " + Join(words)
  {
    assert ([word] + words)[1..] == words;
  }

  /** A run that ends, and what follows the gap after it. */
  lemma RunEnds(current: string, rest: string, words: seq<string>)
    requires Plain(current) && RStrip(rest) == Join(words) && forall w :: w in words ==> Plain(w)
    ensures RStrip(current + (" " + rest)) == Join([current] + words)
  {
    PlainJoin(words);
    PlainHasNoBlank(current);
    JoinFirst(current, words);
    assert RStrip(" ") == "" by { assert RStrip("") == ""; }
    RStripOfBoth(current, " ");
    RStripOfBoth(current + " ", rest);
    assert current + (" " + rest) == (current + " ") + rest;
  }

  lemma RunGrows(current: string, c: char, rest: string)
    requires (current == "" || Plain(current)) && LetterOrDigit(c)
    ensures Plain(current + [c]) && current + ([c] + rest) == (current + [c]) + rest
  {}

  lemma NothingFollows(current: string)
    requires current == "" || Plain(current)
    ensures RStrip(current + Collapse("", current == "")) == Join(Runs("", current))
  {
    assert current + "" == current;
    if current != "" { PlainHasNoBlank(current); JoinOne(current); }
  }

  /** Collapsing a text that continues the run `current`, or follows a gap, joins its runs by single blanks. */
  lemma {:induction false} CollapseJoinsRuns(text: string, current: string)
    requires current == "" || Plain(current)
    ensures RStrip(current + Collapse(text, current == "")) == Join(Runs(text, current))
  {
    hide RStrip, Collapse, Runs, Join, Plain;
    if |text| == 0 {
      NothingFollows(current);
    } else {
      CollapseFirst(text, current == "");
      RunsFirst(text, current);
      var rest := Collapse(text[1..], !LetterOrDigit(text[0]));
      if LetterOrDigit(text[0]) {
        RunGrows(current, text[0], rest);
        CollapseJoinsRuns(text[1..], current + [text[0]]);
      } else {
        CollapseJoinsRuns(text[1..], "");
        assert "" + rest == rest;
        if current == "" {
          assert current + Collapse(text, true) == rest;
        } else {
          RunsArePlain(text[1..], "");
          RunEnds(current, rest, Runs(text[1..], ""));
        }
      }
    }
  }

  lemma CollapseStartsPlain(text: string)
    ensures var c := Collapse(text, true); c == "" || LetterOrDigit(c[0])
  {
    if |text| > 0 && !LetterOrDigit(text[0]) { CollapseStartsPlain(text[1..]); }
  }

  lemma PlainStart(c: char)
    requires LetterOrDigit(c)
    ensures !IsSpace(c)
  {}

  /** What collapsing leaves in front is the blank of a gap, which stripping takes away. */
  lemma FrontGapIsStripped(text: string)
    ensures LStrip(Collapse(text, false)) == Collapse(text, true)
  {
    CollapseStartsPlain(text);
    var c := Collapse(text, true);
    if c != "" { PlainStart(c[0]); }
    assert LStrip(c) == c;
    if |text| > 0 {
      CollapseFirst(text, true);
      CollapseFirst(text, false);
      hide Collapse;
      if !LetterOrDigit(text[0]) { LStripGap(c); }
    }
  }

  lemma LStripGap(text: string)
    ensures LStrip(" " + text) == LStrip(text)
  {
    assert (" " + text)[1..] == text;
  }

  /** A normalised name is the words of the name, joined by single blanks. */
  lemma NormalNameIsItsWords(name: string)
    ensures NormalizeName(Some(name)) == Join(WordsOf(name))
  {
    LowerIsLowerCase(name);
    var text := LowerCase(name);
    CollapseJoinsRuns(text, "");
    FrontGapIsStripped(text);
    hide LStrip, RStrip, Runs, Join, LowerCase, Lower;
    assert "" + Collapse(text, true) == Collapse(text, true);
    if name == "" { assert text == "" by { EmptyLower(); } }
    hide Collapse;
  }

  lemma EmptyLower()
    ensures LowerCase("") == "" && Join(Runs("", "")) == ""
  {}

  // ---- Tokens are those words ----

  lemma {:induction false} TokensOfWord(word: string, rest: string, current: string)
    requires word == "" || Plain(word)
    requires rest == "" || rest[0] == ' '
    ensures TokensFrom(word + rest, current) == TokensFrom(rest, current + word)
  {
    if word == "" {
      assert word + rest == rest && current + word == current;
    } else {
      assert (word + rest)[0] == word[0] && (word + rest)[1..] == word[1..] + rest;
      assert current + word == (current + [word[0]]) + word[1..];
      TokensOfWord(word[1..], rest, current + [word[0]]);
    }
  }

  lemma {:induction false} TokensOfJoin(words: seq<string>)
    requires forall w :: w in words ==> Plain(w)
    ensures Tokens(Join(words)) == words
  {
    if |words| > 0 {
      var first, others := words[0], words[1..];
      var rest := if others == [] then "" else " " + Join(others);
      assert Plain(first);
      assert [first] + others == words;
      JoinFirst(first, others);
      assert first + "" == first && first + (" " + Join(others)) == first + " " + Join(others);
      assert "" + first == first;
      TokensOfWord(first, rest, "");
      if others != [] {
        TokensOfJoin(others);
        assert rest[0] == ' ' && rest[1..] == Join(others);
      }
    }
  }

  /** The tokens the comparison looks at are the words of the name. */
  lemma TokensAreWords(name: string, word: string)
    ensures word in TokenSet(NormalizeName(Some(name))) <==> word in WordsOf(name)
    ensures NormalizeName(Some(name)) == "" <==> WordsOf(name) == []
  {
    NormalNameIsItsWords(name);
    RunsArePlain(LowerCase(name), "");
    TokensOfJoin(WordsOf(name));
    PlainJoin(WordsOf(name));
  }

  // ---- When names agree ----

  /** `needle in hay`. */
  ghost predicate Within(needle: string, hay: string) {
    exists i :: 0 <= i <= |hay| && needle <= hay[i..]
  }

  lemma WithinIsContains(needle: string, hay: string)
    ensures Contains(hay, needle) <==> Within(needle, hay)
  {
    if Within(needle, hay) {
      var i :| 0 <= i <= |hay| && needle <= hay[i..];
      assert hay[i..][..|needle|] == hay[i..i + |needle|];
      assert OccursAt(hay, needle, i);
    }
    if Contains(hay, needle) {
      var i :| 0 <= i <= |hay| && OccursAt(hay, needle, i);
      assert hay[i..][..|needle|] == hay[i..i + |needle|] && needle <= hay[i..];
    }
  }

  ghost predicate ShareWord(a: string, b: string, least: nat) {
    exists w :: w in WordsOf(a) && w in WordsOf(b) && |w| >= least
  }

  /** Both have words; the words of one, joined, lie within those of the other, or all words of the candidate are
      words of the name, or they share one of four characters. */
  ghost predicate SamePlayer(candidate: string, name: string) {
    && WordsOf(candidate) != [] && WordsOf(name) != []
    && (Within(Join(WordsOf(candidate)), Join(WordsOf(name))) || Within(Join(WordsOf(name)), Join(WordsOf(candidate)))
        || (forall w :: w in WordsOf(candidate) ==> w in WordsOf(name))
        || ShareWord(candidate, name, 4))
  }

  /** For events one shared word of any length is enough. */
  ghost predicate SameEvent(candidate: string, name: string) {
    && WordsOf(candidate) != [] && WordsOf(name) != []
    && (Within(Join(WordsOf(candidate)), Join(WordsOf(name))) || Within(Join(WordsOf(name)), Join(WordsOf(candidate)))
        || ShareWord(candidate, name, 0))
  }

  lemma NamesAgree(candidate: string, name: string)
    ensures var c, n := NormalizeName(Some(candidate)), NormalizeName(Some(name));
      && (SamePlayer(candidate, name) <==> c != "" && n != "" && NameMatches(c, n))
      && (SameEvent(candidate, name) <==> c != "" && n != "" && EventTextMatches(c, n))
  {
    var c, n := NormalizeName(Some(candidate)), NormalizeName(Some(name));
    NormalNameIsItsWords(candidate);
    NormalNameIsItsWords(name);
    TokensAreWords(candidate, "");
    TokensAreWords(name, "");
    forall w ensures (w in TokenSet(c) <==> w in WordsOf(candidate)) && (w in TokenSet(n) <==> w in WordsOf(name)) {
      TokensAreWords(candidate, w);
      TokensAreWords(name, w);
    }
    WithinIsContains(c, n);
    WithinIsContains(n, c);
    hide NormalizeName, TokenSet, WordsOf, Within, Contains, Join;
    if WordsOf(candidate) != [] { assert WordsOf(candidate)[0] in TokenSet(c); }
    assert TokenSet(c) * TokenSet(n) != {} <==> ShareWord(candidate, name, 0) by {
      if t :| t in TokenSet(c) * TokenSet(n) { assert |t| >= 0; }
      if ShareWord(candidate, name, 0) {
        var w :| w in WordsOf(candidate) && w in WordsOf(name) && |w| >= 0;
        assert w in TokenSet(c) * TokenSet(n);
      }
    }
  }

  lemma {:induction false} AllNormalized(names: seq<string>, c: string)
    ensures c in NormalizeAll(names) <==> exists name :: name in names && NormalizeName(Some(name)) == c
  {
    hide NormalizeName;
    if |names| > 0 {
      AllNormalized(names[1..], c);
      assert names == [names[0]] + names[1..];
    }
  }

  /** Main result.  A player counts exactly when the game names one and the entry's name or an alias agrees with it;
      in particular names without a common word and without containment never count. */
  lemma PlayerCounts(primary: string, aliases: seq<string>, actual: Option<string>)
    ensures PlayerMatch(primary, aliases, actual) <==>
      actual.Some? && exists name :: (name == primary || name in aliases) && SamePlayer(name, actual.value)
  {
    hide NormalizeName, NameMatches;
    var a := NormalizeName(actual);
    if actual.Some? && actual.value != "" {
      forall name ensures SamePlayer(name, actual.value) <==>
        NormalizeName(Some(name)) != "" && a != "" && NameMatches(NormalizeName(Some(name)), a)
      {
        NamesAgree(name, actual.value);
      }
      hide SamePlayer;
      forall c ensures c in Candidates(primary, aliases) <==>
        exists name :: (name == primary || name in aliases) && NormalizeName(Some(name)) == c
      {
        AllNormalized(aliases, c);
      }
    } else {
      NoName();
    }
  }

  lemma NoName()
    ensures NormalizeName(None) == "" && NormalizeName(Some("")) == "" && WordsOf("") == []
  {}

  /** The same for events. */
  lemma EventCounts(e: Entry, actual: Option<string>)
    ensures EventMatch(e, actual) <==>
      actual.Some? && exists name :: (e.event == Some(name) || name in e.eventAliases) && SameEvent(name, actual.value)
  {
    hide NormalizeName, EventTextMatches;
    var a := NormalizeName(actual);
    if actual.Some? && actual.value != "" {
      forall name ensures SameEvent(name, actual.value) <==>
        NormalizeName(Some(name)) != "" && a != "" && EventTextMatches(NormalizeName(Some(name)), a)
      {
        NamesAgree(name, actual.value);
      }
      hide SameEvent;
      NoName();
      forall c ensures c in EventCandidates(e) && c != "" <==>
        c != "" && exists name :: (e.event == Some(name) || name in e.eventAliases) && NormalizeName(Some(name)) == c
      {
        AllNormalized(e.eventAliases, c);
      }
    } else {
      NoName();
    }
  }

  // ---- What makes a match ----

  ghost predicate Opening(e: Entry, g: Game) {
    && 0 < |e.uciPrefix| <= |g.uciMoves|
    && forall i :: 0 <= i < |e.uciPrefix| ==> LowerCase(g.uciMoves[i]) == e.uciPrefix[i]
  }

  ghost predicate SameGame(e: Entry, g: Game) {
    e.fingerprint.Some? && e.fingerprint.value != "" && g.fingerprint == e.fingerprint.value
  }

  /** The entry names no year, or the game's is at most one away. */
  ghost predicate YearFits(e: Entry, g: Game) {
    e.year == 0 || (g.year.Some? && e.year - 1 <= g.year.value <= e.year + 1)
  }

  ghost predicate White(e: Entry, g: Game) {
    g.white.Some? && exists name :: (name == e.white || name in e.whiteAliases) && SamePlayer(name, g.white.value)
  }

  ghost predicate Black(e: Entry, g: Game) {
    g.black.Some? && exists name :: (name == e.black || name in e.blackAliases) && SamePlayer(name, g.black.value)
  }

  ghost predicate Venue(e: Entry, g: Game) {
    g.event.Some? && exists name :: (e.event == Some(name) || name in e.eventAliases) && SameEvent(name, g.event.value)
  }

  /** The points of an entry, before any threshold: 40 for the year and 15 for a neighbouring one, 50 for the
      opening moves, 25 for each player, 10 for the event. */
  ghost function PointsOf(e: Entry, g: Game): int {
    (if e.year == 0 then 0 else if g.year == Some(e.year) then 40 else 15)
    + (if Opening(e, g) then 50 else 0) + (if White(e, g) then 25 else 0) + (if Black(e, g) then 25 else 0)
    + (if Venue(e, g) then 10 else 0)
  }

  lemma SignalsMean(e: Entry, g: Game)
    ensures var s := SignalsOf(e, g);
      && (s.exact <==> SameGame(e, g)) && (s.uci <==> Opening(e, g)) && (s.white <==> White(e, g))
      && (s.black <==> Black(e, g)) && (s.event <==> Venue(e, g)) && (s.year.Some? <==> YearFits(e, g))
  {
    PlayerCounts(e.white, e.whiteAliases, g.white);
    PlayerCounts(e.black, e.blackAliases, g.black);
    EventCounts(e, g.event);
    forall i | 0 <= i < |g.uciMoves| ensures Lower(g.uciMoves[i]) == LowerCase(g.uciMoves[i]) {
      LowerIsLowerCase(g.uciMoves[i]);
    }
  }

  /** Main result.  An entry scores exactly a flat 100 for the game's own fingerprint, or its points when the year
      fits, they come to 70 or more, and the opening moves agree or else both players and the year do. */
  lemma ScoresExactlyWhen(e: Entry, g: Game, n: int)
    ensures Score(e, g) == Some(n) <==>
      if SameGame(e, g) then n == 100
      else
        && YearFits(e, g) && n == PointsOf(e, g) && n >= 70
        && (Opening(e, g) || (White(e, g) && Black(e, g) && e.year != 0 && g.year == Some(e.year)))
  {
    SignalsMean(e, g);
    hide SameGame, Opening, White, Black, Venue, ExactFingerprint, UciPrefixMatch, PlayerMatch, EventMatch;
  }

  /** Names are never enough: without the fingerprint and the opening moves a match needs both players, each in the
      words of its name, and the very year. */
  lemma NamesAloneAreNotEnough(e: Entry, g: Game)
    requires Score(e, g).Some? && !SameGame(e, g) && !Opening(e, g)
    ensures White(e, g) && Black(e, g) && e.year != 0 && g.year == Some(e.year)
  {
    ScoresExactlyWhen(e, g, Score(e, g).value);
  }

  /** Strangers never match: a player none of whose words is a word of the entry's names, and whose name contains
      none of theirs and lies in none, leaves only the fingerprint or the opening moves. */
  lemma StrangersNeedTheMoves(e: Entry, g: Game, name: string)
    requires g.white == Some(name) || g.black == Some(name)
    requires forall c :: c == e.white || c == e.black || c in e.whiteAliases || c in e.blackAliases ==>
      && !ShareWord(c, name, 0)
      && !Within(Join(WordsOf(c)), Join(WordsOf(name))) && !Within(Join(WordsOf(name)), Join(WordsOf(c)))
    ensures Score(e, g).Some? ==> SameGame(e, g) || Opening(e, g)
  {
    forall c | c == e.white || c == e.black || c in e.whiteAliases || c in e.blackAliases
      ensures !SamePlayer(c, name)
    {
      hide WordsOf, Within, Join;
      assert WordsOf(c) != [] ==> WordsOf(c)[0] in WordsOf(c) && |WordsOf(c)[0]| >= 0;
    }
    if Score(e, g).Some? && !SameGame(e, g) && !Opening(e, g) { NamesAloneAreNotEnough(e, g); }
  }

  // ---- What curation writes ----

  /** Curation marks and names the game, fills in a missing event and year, and leaves the rest of the game alone. */
  lemma CuratedInFields(g: Game, e: Entry, key: string)
    ensures var g' := Curated(g, e);
      && g'.isFamous && g'.famousTitle == Some(e.title)
      && g'.white == g.white && g'.black == g.black && g'.fingerprint == g.fingerprint && g'.uciMoves == g.uciMoves
      && g'.year == (if g.year == None && e.year != 0 then Some(e.year) else g.year)
      && g'.event == (if (g.event == None || g.event == Some("")) && e.event != None && e.event != Some("") then e.event
                      else g.event)
      && "famous_catalog_id" in g'.meta && g'.meta["famous_catalog_id"] == e.id
      && (key != "famous_catalog_id" && key != "famous_significance" ==>
            (key in g'.meta <==> key in g.meta) && (key in g.meta ==> g'.meta[key] == g.meta[key]))
      && (e.significance != "" && !("famous_catalog_id" in g.meta && g.meta["famous_catalog_id"] == e.id) ==>
            "famous_significance" in g'.meta && g'.meta["famous_significance"] == Strip(e.significance))
  {
    assert "famous_catalog_id" != "famous_significance" by { assert |"famous_catalog_id"| != |"famous_significance"|; }
  }

  lemma {:induction false} DedupHasNoRepeats(xs: seq<string>)
    ensures forall i, j :: 0 <= i < j < |Dedup(xs)| ==> Dedup(xs)[i] != Dedup(xs)[j]
    ensures (forall i, j :: 0 <= i < j < |xs| ==> xs[i] != xs[j]) ==> Dedup(xs) == xs
  {
    if |xs| > 0 {
      var n := |xs| - 1;
      DedupHasNoRepeats(xs[..n]);
      DedupMembers(xs[..n], xs[n]);
      assert xs == xs[..n] + [xs[n]];
      if forall i, j :: 0 <= i < j < |xs| ==> xs[i] != xs[j] {
        assert xs[n] !in xs[..n];
      }
    }
  }

  lemma {:induction false} DedupKeepsFront(xs: seq<string>, ys: seq<string>)
    ensures Dedup(xs) <= Dedup(xs + ys)
  {
    if |ys| == 0 {
      assert xs + ys == xs;
    } else {
      assert (xs + ys)[..|xs + ys| - 1] == xs + ys[..|ys| - 1];
      DedupKeepsFront(xs, ys[..|ys| - 1]);
    }
  }

  /** The tags of a curated game: those it had, in front and in order, those of the entry, and the two stamps, none
      of them twice. */
  lemma CuratedTags(g: Game, e: Entry, tag: string)
    ensures var tags := Curated(g, e).tags;
      && (tag in tags <==> tag in g.tags || tag in e.tags || tag == "famous" || tag == "catalog:" + e.id)
      && (forall i, j :: 0 <= i < j < |tags| ==> tags[i] != tags[j])
      && ((forall i, j :: 0 <= i < j < |g.tags| ==> g.tags[i] != g.tags[j]) ==> g.tags <= tags)
  {
    DedupMembers(g.tags + DesiredTags(e), tag);
    DedupHasNoRepeats(g.tags + DesiredTags(e));
    DedupHasNoRepeats(g.tags);
    DedupKeepsFront(g.tags, DesiredTags(e));
  }
}
