/** What stripping, lower-casing and cleaning do to a text, character by character, and what a fingerprint therefore
    does not see. */
module CleanText {
  import opened Wrappers
  import opened Text
  import opened Fingerprint

  const SPACES := {' ', '\t', '\n', '\r', 11 as char, 12 as char}

  predicate Blank(text: string) {
    forall i :: 0 <= i < |text| ==> text[i] in SPACES
  }

  /** ASCII lower case. */
  function LowerCase(text: string): string {
    seq(|text|, i requires 0 <= i < |text| =>
      if 'A' <= text[i] <= 'Z' then (text[i] as int - 'A' as int + 'a' as int) as char else text[i])
  }

  lemma {:induction false} LowerIsLowerCase(text: string)
    ensures Lower(text) == LowerCase(text)
  {
    if |text| > 0 {
      LowerIsLowerCase(text[1..]);
      assert LowerCase(text) == [LowerCase(text)[0]] + LowerCase(text[1..]);
    }
  }

  // ---- Strip ----

  lemma {:induction false} LStripSkips(blanks: string, text: string)
    requires Blank(blanks)
    ensures LStrip(blanks + text) == LStrip(text)
  {
    if |blanks| == 0 {
      assert blanks + text == text;
    } else {
      assert (blanks + text)[1..] == blanks[1..] + text;
      LStripSkips(blanks[1..], text);
    }
  }

  lemma {:induction false} RStripSkips(text: string, blanks: string)
    requires Blank(blanks)
    ensures RStrip(text + blanks) == RStrip(text)
  {
    if |blanks| == 0 {
      assert text + blanks == text;
    } else {
      var n := |blanks| - 1;
      assert (text + blanks)[..|text + blanks| - 1] == text + blanks[..n];
      RStripSkips(text, blanks[..n]);
    }
  }

  lemma {:induction false} LStripInFront(text: string, rest: string)
    ensures LStrip(text + rest) == if Blank(text) then LStrip(rest) else LStrip(text) + rest
  {
    if |text| == 0 {
      assert text + rest == rest;
    } else {
      assert (text + rest)[1..] == text[1..] + rest;
      LStripInFront(text[1..], rest);
      if IsSpace(text[0]) { assert Blank(text) <==> Blank(text[1..]); }
    }
  }

  /** `strip` takes white space off both ends and nothing else: what is left begins and ends with something else. */
  lemma StripTakesSpaces(text: string) returns (before: string, after: string)
    ensures text == before + Strip(text) + after && Blank(before) && Blank(after)
    ensures Strip(text) == "" || (Strip(text)[0] !in SPACES && Strip(text)[|Strip(text)| - 1] !in SPACES)
    ensures Strip(text) == "" <==> Blank(text)
  {
    StripYieldsStripped(text);
    if Strip(text) != "" { EndsAreNoBlanks(Strip(text)); }
    hide Strip, Stripped;
    before, after := StripDivides(text);
    hide Blank;
    if Blank(text) { BlankStrips(text); }
    if Strip(text) == "" {
      BlankBoth(before, after);
      assert before + "" + after == before + after;
    }
  }

  lemma StripDivides(text: string) returns (before: string, after: string)
    ensures text == before + Strip(text) + after && Blank(before) && Blank(after)
  {
    before := FrontBlanks(text);
    after := BackBlanks(LStrip(text));
    hide LStrip, RStrip, Blank;
    Regroup(before, Strip(text), after);
  }

  lemma Regroup(a: string, b: string, c: string)
    ensures a + (b + c) == a + b + c
  {}

  lemma EndsAreNoBlanks(text: string)
    requires Stripped(text) && text != ""
    ensures text[0] !in SPACES && text[|text| - 1] !in SPACES
  {}

  lemma BlankBoth(a: string, b: string)
    requires Blank(a) && Blank(b)
    ensures Blank(a + b)
  {}

  lemma BlankStrips(text: string)
    requires Blank(text)
    ensures Strip(text) == ""
  {
    LStripSkips(text, "");
    assert text + "" == text;
  }

  lemma {:induction false} FrontBlanks(text: string) returns (before: string)
    ensures text == before + LStrip(text) && Blank(before)
  {
    if |text| > 0 && IsSpace(text[0]) {
      before := FrontBlanks(text[1..]);
      assert text == [text[0]] + text[1..];
      before := [text[0]] + before;
    } else {
      before := "";
    }
  }

  lemma {:induction false} BackBlanks(text: string) returns (after: string)
    ensures text == RStrip(text) + after && Blank(after)
  {
    if |text| > 0 && IsSpace(text[|text| - 1]) {
      var n := |text| - 1;
      after := BackBlanks(text[..n]);
      assert text == text[..n] + [text[n]];
      after := after + [text[n]];
    } else {
      after := "";
    }
  }

  /** White space around a text is not seen. */
  lemma StripIgnoresPadding(before: string, text: string, after: string)
    requires Blank(before) && Blank(after)
    ensures Strip(before + text + after) == Strip(text)
  {
    assert before + text + after == before + (text + after);
    LStripSkips(before, text + after);
    LStripInFront(text, after);
    if Blank(text) {
      LStripSkips(text, "");
      LStripSkips(after, "");
      assert text + "" == text && after + "" == after;
    } else {
      RStripSkips(LStrip(text), after);
    }
  }

  lemma LowerKeepsBlanks(c: char)
    ensures LowerCase([c])[0] in SPACES <==> c in SPACES
  {}

  lemma {:induction false} LStripLowers(text: string)
    ensures LStrip(LowerCase(text)) == LowerCase(LStrip(text))
  {
    if |text| > 0 {
      LowerKeepsBlanks(text[0]);
      assert LowerCase(text)[1..] == LowerCase(text[1..]);
      LStripLowers(text[1..]);
    }
  }

  lemma {:induction false} RStripLowers(text: string)
    ensures RStrip(LowerCase(text)) == LowerCase(RStrip(text))
  {
    if |text| > 0 {
      var n := |text| - 1;
      LowerKeepsBlanks(text[n]);
      assert LowerCase(text)[..n] == LowerCase(text[..n]);
      RStripLowers(text[..n]);
    }
  }

  // ---- Moves and results ----

  lemma {:induction false} CleanMovesSplit(a: seq<string>, b: seq<string>)
    ensures CleanMoves(a + b) == CleanMoves(a) + CleanMoves(b)
  {
    if |a| == 0 {
      assert a + b == b;
    } else {
      assert (a + b)[1..] == a[1..] + b;
      CleanMovesSplit(a[1..], b);
    }
  }

  /** One move: dropped when it is blank, else stripped and in lower case. */
  lemma CleanOneMove(move: string)
    ensures CleanMoves([move]) == if Blank(move) then [] else [LowerCase(Strip(move))]
  {
    var before, after := StripTakesSpaces(move);
    LowerIsLowerCase(Strip(move));
    assert [move][1..] == [];
  }

  /** Moves that are clean already stay: nothing but blank moves, padding and case is lost. */
  lemma {:induction false} CleanMovesStay(moves: seq<string>)
    requires forall m :: m in moves ==> m != "" && Stripped(m) && LowerCase(m) == m
    ensures CleanMoves(moves) == moves
  {
    if |moves| > 0 {
      var m := moves[0];
      assert m in moves;
      StripYieldsStripped(m);
      LowerIsLowerCase(m);
      forall x | x in moves[1..] ensures x in moves {}
      CleanMovesStay(moves[1..]);
      assert moves == [m] + moves[1..];
    }
  }

  lemma SameMove(move: string, move': string)
    requires Blank(move) == Blank(move') && LowerCase(Strip(move)) == LowerCase(Strip(move'))
    ensures CleanMoves([move]) == CleanMoves([move'])
  {
    CleanOneMove(move);
    CleanOneMove(move');
  }

  lemma OneMoveAmong(before: seq<string>, move: string, after: seq<string>)
    ensures CleanMoves(before + [move] + after) == CleanMoves(before) + CleanMoves([move]) + CleanMoves(after)
  {
    CleanMovesSplit(before + [move], after);
    CleanMovesSplit(before, [move]);
  }

  /** Main result.  A fingerprint does not see how a game is written: white space around the FEN, a move or the result,
      the case of a move, blank moves, and whether a missing result is left out, empty or a star. */
  lemma WritingDoesNotMatter(
      fen: string, moves: seq<string>, move: string, more: seq<string>, result: string, pad: string, pad': string)
    requires Blank(pad) && Blank(pad')
    ensures var game := GameFingerprint(fen, moves + [move] + more, Some(result));
      && GameFingerprint(pad + fen + pad', moves + [move] + more, Some(result)) == game
      && GameFingerprint(fen, moves + [pad + move + pad'] + more, Some(result)) == game
      && GameFingerprint(fen, moves + [LowerCase(move)] + more, Some(result)) == game
      && (Blank(move) ==> GameFingerprint(fen, moves + more, Some(result)) == game)
      && (result != "" ==> GameFingerprint(fen, moves + [move] + more, Some(pad + result + pad')) == game)
      && (result == "" ==>
            GameFingerprint(fen, moves + [move] + more, None) == game
            == GameFingerprint(fen, moves + [move] + more, Some("*")))
  {
    StripIgnoresPadding(pad, fen, pad');
    StripIgnoresPadding(pad, result, pad');
    SameMoves(moves, move, more, pad, pad');
    hide CleanMoves, Strip, LowerCase, Blank, Payload;
  }

  lemma SameMoves(moves: seq<string>, move: string, more: seq<string>, pad: string, pad': string)
    requires Blank(pad) && Blank(pad')
    ensures CleanMoves(moves + [pad + move + pad'] + more) == CleanMoves(moves + [move] + more)
    ensures CleanMoves(moves + [LowerCase(move)] + more) == CleanMoves(moves + [move] + more)
    ensures Blank(move) ==> CleanMoves(moves + more) == CleanMoves(moves + [move] + more)
  {
    PaddedMove(pad, move, pad');
    LoweredMove(move);
    CleanOneMove(move);
    hide CleanMoves, Strip, LowerCase, Blank;
    OneMoveAmong(moves, move, more);
    OneMoveAmong(moves, pad + move + pad', more);
    OneMoveAmong(moves, LowerCase(move), more);
    CleanMovesSplit(moves, more);
    assert CleanMoves(moves) + [] == CleanMoves(moves);
  }

  lemma PaddedMove(pad: string, move: string, pad': string)
    requires Blank(pad) && Blank(pad')
    ensures CleanMoves([pad + move + pad']) == CleanMoves([move])
  {
    StripIgnoresPadding(pad, move, pad');
    var a, b := StripTakesSpaces(move);
    var c, d := StripTakesSpaces(pad + move + pad');
    SameMove(move, pad + move + pad');
  }

  lemma LoweredMove(move: string)
    ensures CleanMoves([LowerCase(move)]) == CleanMoves([move])
  {
    LStripLowers(move);
    RStripLowers(LStrip(move));
    var a, b := StripTakesSpaces(move);
    var c, d := StripTakesSpaces(LowerCase(move));
    assert LowerCase(LowerCase(Strip(move))) == LowerCase(Strip(move));
    SameMove(move, LowerCase(move));
  }
}
