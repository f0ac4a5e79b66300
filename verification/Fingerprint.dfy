/** Game and puzzle fingerprints.  The hash is taken to be injective, so a fingerprint is its payload. */
module Fingerprint {
  import opened Wrappers
  import opened Text

  /** Every non-blank move, stripped and lowered. */
  function CleanMoves(moves: seq<string>): (clean: seq<string>)
    ensures forall m :: m in clean ==> m != ""
  {
    if |moves| == 0 then []
    else (if Strip(moves[0]) == "" then [] else [Lower(Strip(moves[0]))]) + CleanMoves(moves[1..])
  }

  /** `" ".join(words)`. */
  function Join(words: seq<string>): string {
    if |words| == 0 then "" else if |words| == 1 then words[0] else words[0] + " " + Join(words[1..])
  }

  function CleanResult(result: Option<string>): string {
    Strip(if result.Some? && result.value != "" then result.value else "*")
  }

  /** The identity of a game: what two sightings must agree on to be the same game. */
  datatype Identity = Identity(fen: string, moves: seq<string>, result: string)

  function IdentityOf(fen: string, moves: seq<string>, result: Option<string>): Identity {
    Identity(Strip(fen), CleanMoves(moves), CleanResult(result))
  }

  function Payload(i: Identity): string {
    i.fen + "|" + Join(i.moves) + "|" + i.result
  }

  function GameFingerprint(fen: string, moves: seq<string>, result: Option<string>): string {
    Payload(IdentityOf(fen, moves, result))
  }

  function PuzzleFingerprint(fen: string, moves: seq<string>): string {
    Strip(fen) + "|" + Join(CleanMoves(moves))
  }

  /** A FEN holds no bar, and a move neither a bar nor a blank. */
  predicate ChessText(fen: string, moves: seq<string>) {
    '|' !in fen && forall m :: m in moves ==> m != "" && '|' !in m && ' ' !in m
  }

  /** The first `c` of a text splits it in one way only. */
  lemma {:induction false} SplitIsUnique(c: char, a: string, x: string, b: string, y: string)
    requires c !in a && c !in b && a + [c] + x == b + [c] + y
    ensures a == b && x == y
  {
    if |a| == 0 || |b| == 0 {
      assert (a + [c] + x)[|a|] == c && (b + [c] + y)[|b|] == c;
      assert |a| == |b|;
      assert (a + [c] + x)[1..] == x && (b + [c] + y)[1..] == y;
    } else {
      assert (a + [c] + x)[0] == a[0] && (b + [c] + y)[0] == b[0];
      assert (a + [c] + x)[1..] == a[1..] + [c] + x;
      assert (b + [c] + y)[1..] == b[1..] + [c] + y;
      SplitIsUnique(c, a[1..], x, b[1..], y);
    }
  }

  lemma {:induction false} JoinHasNoBar(words: seq<string>)
    requires forall w :: w in words ==> '|' !in w
    ensures '|' !in Join(words)
  {
    if |words| > 1 { JoinHasNoBar(words[1..]); }
  }

  /** Non-empty words without blanks. */
  ghost predicate Words(words: seq<string>) {
    forall w :: w in words ==> w != "" && ' ' !in w
  }

  lemma JoinShowsLength(words: seq<string>)
    requires Words(words)
    ensures Join(words) == "" <==> |words| == 0
    ensures ' ' in Join(words) <==> |words| > 1
  {
    if |words| > 0 { assert words[0] in words; }
    if |words| > 1 { assert Join(words)[|words[0]|] == ' '; }
  }

  lemma {:induction false} JoinIsInjective(xs: seq<string>, ys: seq<string>)
    requires Words(xs) && Words(ys) && Join(xs) == Join(ys)
    ensures xs == ys
  {
    JoinShowsLength(xs);
    JoinShowsLength(ys);
    if |xs| > 1 {
      assert xs[0] in xs && ys[0] in ys;
      SplitIsUnique(' ', xs[0], Join(xs[1..]), ys[0], Join(ys[1..]));
      assert forall w :: w in xs[1..] ==> w in xs;
      assert forall w :: w in ys[1..] ==> w in ys;
      JoinIsInjective(xs[1..], ys[1..]);
      assert xs == [xs[0]] + xs[1..] && ys == [ys[0]] + ys[1..];
    }
  }

  // ---- What a payload tells ----

  /** `text.split(" ")`. */
  function Split(text: string): (pieces: seq<string>)
    ensures |pieces| > 0
  {
    if |text| == 0 then [""]
    else
      var rest := Split(text[1..]);
      if text[0] == ' ' then [""] + rest else [[text[0]] + rest[0]] + rest[1..]
  }

  /** The moves as the payload shows them: a blank inside a move divides it. */
  function Pieces(moves: seq<string>): seq<string> {
    if |moves| == 0 then [] else Split(moves[0]) + Pieces(moves[1..])
  }

  lemma JoinBlank(pieces: seq<string>)
    requires |pieces| > 0
    ensures Join([""] + pieces) == " " + Join(pieces)
  {
    assert ([""] + pieces)[1..] == pieces;
  }

  lemma JoinPrepend(c: char, pieces: seq<string>)
    requires |pieces| > 0
    ensures Join([[c] + pieces[0]] + pieces[1..]) == [c] + Join(pieces)
  {
    var first := [c] + pieces[0];
    assert ([first] + pieces[1..])[1..] == pieces[1..];
    if |pieces| > 1 { assert [c] + (pieces[0] + " " + Join(pieces[1..])) == first + " " + Join(pieces[1..]); }
  }

  lemma {:induction false} SplitJoins(text: string)
    ensures Join(Split(text)) == text
  {
    hide Join;
    if |text| > 0 {
      SplitJoins(text[1..]);
      if text[0] == ' ' { JoinBlank(Split(text[1..])); } else { JoinPrepend(text[0], Split(text[1..])); }
    } else {
      assert Join([""]) == "" by { JoinOne(""); }
    }
  }

  lemma JoinOne(word: string)
    ensures Join([word]) == word
  {}

  /** Splitting a text with one more character in front. */
  function Front(c: char, pieces: seq<string>): seq<string>
    requires |pieces| > 0
  {
    if c == ' ' then [""] + pieces else [[c] + pieces[0]] + pieces[1..]
  }

  lemma FrontOfBoth(c: char, a: seq<string>, b: seq<string>)
    requires |a| > 0
    ensures Front(c, a + b) == Front(c, a) + b
  {
    assert (a + b)[0] == a[0] && (a + b)[1..] == a[1..] + b;
  }

  lemma SplitFront(text: string)
    requires |text| > 0
    ensures Split(text) == Front(text[0], Split(text[1..]))
  {}

  lemma {:induction false} SplitDivides(a: string, b: string)
    ensures Split(a + " " + b) == Split(a) + Split(b)
  {
    var all := a + " " + b;
    SplitFront(all);
    if |a| == 0 {
      assert all[0] == ' ' && all[1..] == b;
    } else {
      assert all[0] == a[0] && all[1..] == a[1..] + " " + b;
      SplitFront(a);
      hide Split, Front;
      SplitDivides(a[1..], b);
      FrontOfBoth(a[0], Split(a[1..]), Split(b));
    }
  }

  lemma {:induction false} PiecesAreSplit(moves: seq<string>)
    requires |moves| > 0
    ensures Pieces(moves) == Split(Join(moves))
  {
    if |moves| > 1 {
      PiecesAreSplit(moves[1..]);
      SplitDivides(moves[0], Join(moves[1..]));
    } else {
      assert Pieces(moves[1..]) == [];
    }
  }

  /** Two lists of non-empty moves read the same exactly when they have the same pieces. */
  lemma JoinTellsPieces(xs: seq<string>, ys: seq<string>)
    requires (forall x :: x in xs ==> x != "") && (forall y :: y in ys ==> y != "")
    ensures Join(xs) == Join(ys) <==> Pieces(xs) == Pieces(ys)
  {
    if |xs| > 0 {
      assert xs[0] in xs;
      PiecesAreSplit(xs);
      SplitJoins(Join(xs));
    }
    if |ys| > 0 {
      assert ys[0] in ys;
      PiecesAreSplit(ys);
      SplitJoins(Join(ys));
    }
  }

  /** No part of the identity holds the bar the payload divides its parts with. */
  predicate BarFree(i: Identity) {
    '|' !in i.fen && '|' !in Join(i.moves) && '|' !in i.result
  }

  predicate SameText(a: Identity, b: Identity) {
    a.fen == b.fen && Join(a.moves) == Join(b.moves) && a.result == b.result
  }

  lemma PayloadParts(i: Identity)
    ensures Payload(i) == i.fen + ['|'] + (Join(i.moves) + ['|'] + i.result)
  {}

  /** When FEN and moves hold no bar on either side, a payload tells its three parts. */
  lemma PayloadTellsParts(a: Identity, b: Identity)
    requires '|' !in a.fen && '|' !in Join(a.moves) && '|' !in b.fen && '|' !in Join(b.moves)
    ensures Payload(a) == Payload(b) <==> SameText(a, b)
  {
    if Payload(a) == Payload(b) {
      PayloadParts(a);
      PayloadParts(b);
      SplitIsUnique('|', a.fen, Join(a.moves) + ['|'] + a.result, b.fen, Join(b.moves) + ['|'] + b.result);
      SplitIsUnique('|', Join(a.moves), a.result, Join(b.moves), b.result);
    }
  }

  /** A text with a bar, divided at its first one. */
  lemma {:induction false} FirstBar(text: string) returns (before: string, after: string)
    requires '|' in text
    ensures text == before + ['|'] + after && '|' !in before
  {
    if text[0] == '|' {
      before, after := "", text[1..];
    } else {
      var b, a := FirstBar(text[1..]);
      before, after := [text[0]] + b, a;
      assert text == [text[0]] + text[1..];
    }
  }

  function Bars(text: string): nat {
    if |text| == 0 then 0 else (if text[0] == '|' then 1 else 0) + Bars(text[1..])
  }

  lemma {:induction false} BarsAdd(a: string, b: string)
    ensures Bars(a + b) == Bars(a) + Bars(b)
  {
    if |a| == 0 {
      assert a + b == b;
    } else {
      assert (a + b)[1..] == a[1..] + b;
      BarsAdd(a[1..], b);
    }
  }

  lemma {:induction false} NoBars(text: string)
    ensures Bars(text) == 0 <==> '|' !in text
  {
    if |text| > 0 { NoBars(text[1..]); }
  }

  lemma PayloadBars(i: Identity)
    ensures Bars(Payload(i)) == Bars(i.fen) + Bars(Join(i.moves)) + Bars(i.result) + 2
  {
    PayloadParts(i);
    BarsAdd(i.fen + ['|'], Join(i.moves) + ['|'] + i.result);
    BarsAdd(i.fen, ['|']);
    BarsAdd(Join(i.moves) + ['|'], i.result);
    BarsAdd(Join(i.moves), ['|']);
    assert Bars(['|']) == 1;
  }

  /** A list of non-empty moves that reads `text`. */
  function OneMove(text: string): (moves: seq<string>)
    ensures Join(moves) == text && forall m :: m in moves ==> m != ""
  {
    if text == "" then [] else [text]
  }

  /** An identity with a bar shares its payload with another one. */
  lemma BarCollides(a: Identity) returns (b: Identity)
    requires !BarFree(a)
    ensures Payload(a) == Payload(b) && !SameText(a, b) && forall m :: m in b.moves ==> m != ""
  {
    PayloadParts(a);
    var m := Join(a.moves);
    if '|' in a.fen {
      var x, y := FirstBar(a.fen);
      b := Identity(x, OneMove(y), m + ['|'] + a.result);
      PayloadParts(b);
      assert x + ['|'] + y + ['|'] + (m + ['|'] + a.result) == x + ['|'] + (y + ['|'] + (m + ['|'] + a.result));
    } else if '|' in m {
      var x, y := FirstBar(m);
      b := Identity(a.fen, OneMove(x), y + ['|'] + a.result);
      PayloadParts(b);
      assert x + ['|'] + y + ['|'] + a.result == x + ['|'] + (y + ['|'] + a.result);
      assert |x| < |m|;
    } else {
      var x, y := FirstBar(a.result);
      b := Identity(a.fen + ['|'] + m, OneMove(x), y);
      PayloadParts(b);
      assert a.fen + ['|'] + (m + ['|'] + (x + ['|'] + y)) == a.fen + ['|'] + m + ['|'] + (x + ['|'] + y);
      assert |b.fen| > |a.fen|;
    }
  }

  /** A payload tells FEN, moves text and result apart, among arbitrary identities, exactly when none of the three
      holds a bar: then every identity with that payload agrees in all three, and otherwise some identity does
      not. */
  lemma TellingExactlyWithoutBars(a: Identity)
    ensures BarFree(a) <==> forall b :: Payload(b) == Payload(a) ==> SameText(a, b)
  {
    if BarFree(a) {
      forall b | Payload(b) == Payload(a) ensures SameText(a, b) {
        PayloadBars(a);
        PayloadBars(b);
        NoBars(a.fen); NoBars(Join(a.moves)); NoBars(a.result);
        NoBars(b.fen); NoBars(Join(b.moves)); NoBars(b.result);
        PayloadTellsParts(a, b);
      }
    } else {
      var b := BarCollides(a);
    }
  }

  // ---- Identities that cleaning yields ----

  /** Stripping takes nothing off. */
  predicate Stripped(text: string) {
    text == "" || (!IsSpace(text[0]) && !IsSpace(text[|text| - 1]))
  }

  lemma {:induction false} LStripStops(text: string)
    ensures LStrip(text) == "" || !IsSpace(LStrip(text)[0])
    ensures text == "" || !IsSpace(text[0]) ==> LStrip(text) == text
  {
    if |text| > 0 && IsSpace(text[0]) { LStripStops(text[1..]); }
  }

  lemma {:induction false} RStripStops(text: string)
    ensures RStrip(text) == "" || !IsSpace(RStrip(text)[|RStrip(text)| - 1])
    ensures text == "" || !IsSpace(text[|text| - 1]) ==> RStrip(text) == text
    ensures RStrip(text) <= text
  {
    if |text| > 0 && IsSpace(text[|text| - 1]) { RStripStops(text[..|text| - 1]); }
  }

  /** `strip` yields exactly the stripped texts, and leaves them alone. */
  lemma StripYieldsStripped(text: string)
    ensures Stripped(Strip(text)) && (Stripped(text) ==> Strip(text) == text)
  {
    LStripStops(text);
    RStripStops(LStrip(text));
    RStripStops(text);
  }

  predicate Lowered(text: string) {
    forall i :: 0 <= i < |text| ==> LowerChar(text[i]) == text[i]
  }

  lemma {:induction false} LowerYieldsLowered(text: string)
    ensures Lowered(Lower(text)) && (Lowered(text) ==> Lower(text) == text)
    ensures forall i :: 0 <= i < |text| ==> Lower(text)[i] == LowerChar(text[i])
  {
    if |text| > 0 { LowerYieldsLowered(text[1..]); }
  }

  /** A moves text that cleaning can yield. */
  predicate MovesText(text: string) {
    Stripped(text) && Lowered(text)
  }

  lemma LowerKeepsSpace(c: char)
    ensures IsSpace(LowerChar(c)) == IsSpace(c)
  {}

  lemma CleanMove(move: string)
    ensures MovesText(Lower(Strip(move)))
  {
    StripYieldsStripped(move);
    var text := Strip(move);
    LowerYieldsLowered(text);
    if text != "" {
      LowerKeepsSpace(text[0]);
      LowerKeepsSpace(text[|text| - 1]);
    }
  }

  lemma TwoTexts(a: string, b: string)
    requires MovesText(a) && MovesText(b) && a != "" && b != ""
    ensures MovesText(a + " " + b)
  {
    var text := a + " " + b;
    assert text[0] == a[0] && text[|text| - 1] == b[|b| - 1];
    forall i | 0 <= i < |text| ensures LowerChar(text[i]) == text[i] {
      if i < |a| { assert text[i] == a[i]; } else if i > |a| { assert text[i] == b[i - |a| - 1]; }
    }
  }

  lemma {:induction false} CleanMovesYieldText(moves: seq<string>)
    ensures MovesText(Join(CleanMoves(moves)))
  {
    if |moves| > 0 {
      hide MovesText, Strip;
      CleanMovesYieldText(moves[1..]);
      CleanMove(moves[0]);
      var rest := CleanMoves(moves[1..]);
      if Strip(moves[0]) != "" {
        var first := Lower(Strip(moves[0]));
        assert CleanMoves(moves) == [first] + rest && ([first] + rest)[1..] == rest;
        if |rest| > 0 {
          assert rest[0] in rest;
          NonEmptyJoin(rest);
          TwoTexts(first, Join(rest));
        }
      } else {
        assert CleanMoves(moves) == rest;
      }
    } else {
      assert MovesText("");
    }
  }

  lemma NonEmptyJoin(words: seq<string>)
    requires |words| > 0 && words[0] != ""
    ensures Join(words) != ""
  {}

  /** Cleaning one move text that is clean already, and has something in it. */
  lemma MovesTextIsYielded(text: string)
    requires MovesText(text)
    ensures Join(CleanMoves([text])) == text
  {
    StripYieldsStripped(text);
    LowerYieldsLowered(text);
    assert CleanMoves([text][1..]) == [];
    if text != "" { assert CleanMoves([text]) == [text]; }
  }

  /** The payload of a game, parts put together. */
  function PayloadText(fen: string, moves: string, result: string): string {
    fen + "|" + moves + "|" + result
  }

  /** The payload may be divided before `i` and after `j` into parts that cleaning can yield. */
  predicate DividesAt(text: string, i: nat, j: nat) {
    && i < j < |text| && text[i] == '|' && text[j] == '|'
    && Stripped(text[..i]) && MovesText(text[i + 1..j]) && Stripped(text[j + 1..])
  }

  /** No two bars but the ones that were put there divide the payload so. */
  predicate DividesOnce(text: string, i: nat, j: nat) {
    forall i', j' :: 0 <= i' < j' < |text| && DividesAt(text, i', j') ==> i' == i && j' == j
  }

  /** An identity of some inputs. */
  ghost predicate Yielded(i: Identity) {
    exists fen, moves, result :: i == IdentityOf(fen, moves, result)
  }

  lemma YieldedDivides(a: Identity)
    requires Yielded(a)
    ensures DividesAt(Payload(a), |a.fen|, |a.fen| + 1 + |Join(a.moves)|)
    ensures |a.fen| + 1 + |Join(a.moves)| < |Payload(a)|
  {
    YieldedParts(a);
    Parts(a.fen, Join(a.moves), a.result);
    hide Stripped, MovesText, Yielded;
  }

  lemma YieldedParts(a: Identity)
    requires Yielded(a)
    ensures Stripped(a.fen) && MovesText(Join(a.moves)) && Stripped(a.result)
  {
    hide Stripped, MovesText, Strip;
    var fen, moves, result :| a == IdentityOf(fen, moves, result);
    StripYieldsStripped(fen);
    CleanMovesYieldText(moves);
    StripYieldsStripped(if result.Some? && result.value != "" then result.value else "*");
  }

  lemma Parts(fen: string, moves: string, result: string)
    ensures var text := PayloadText(fen, moves, result);
      var i, j := |fen|, |fen| + 1 + |moves|;
      j < |text| && text[i] == '|' && text[j] == '|'
      && text[..i] == fen && text[i + 1..j] == moves && text[j + 1..] == result
  {}

  /** Every such division is the identity of some inputs. */
  lemma DivisionIsYielded(text: string, i: nat, j: nat) returns (b: Identity)
    requires DividesAt(text, i, j)
    ensures Yielded(b) && Payload(b) == text && |b.fen| == i && |b.fen| + 1 + |Join(b.moves)| == j
  {
    hide Stripped, MovesText, Strip, CleanMoves, CleanResult, Join;
    var fen, moves, result := text[..i], text[i + 1..j], text[j + 1..];
    b := IdentityOf(fen, [moves], Some(if result == "" then " " else result));
    StripYieldsStripped(fen);
    MovesTextIsYielded(moves);
    ResultIsYielded(result);
    assert text == fen + "|" + moves + "|" + result;
  }

  lemma ResultIsYielded(result: string)
    requires Stripped(result)
    ensures CleanResult(Some(if result == "" then " " else result)) == result
  {
    StripYieldsStripped(result);
    BlankResult();
  }

  lemma BlankResult()
    ensures Strip(" ") == ""
  {
    assert LStrip(" ") == LStrip("");
  }

  /** Main result, for the identities that the functions themselves produce: all inputs with the payload of `a`
      agree with it in FEN, moves text and result exactly when its payload can be divided in one way only.  No bar
      inside the parts is enough for that. */
  lemma YieldedTellExactly(a: Identity)
    requires Yielded(a)
    ensures (forall b :: Yielded(b) && Payload(b) == Payload(a) ==> SameText(a, b))
      <==> DividesOnce(Payload(a), |a.fen|, |a.fen| + 1 + |Join(a.moves)|)
    ensures BarFree(a) ==> DividesOnce(Payload(a), |a.fen|, |a.fen| + 1 + |Join(a.moves)|)
  {
    hide Yielded, DividesAt, Payload;
    var text := Payload(a);
    var i, j := |a.fen|, |a.fen| + 1 + |Join(a.moves)|;
    if DividesOnce(text, i, j) {
      forall b | Yielded(b) && Payload(b) == text ensures SameText(a, b) {
        YieldedDivides(b);
        PartsAgree(a, b);
      }
    }
    if forall b :: Yielded(b) && Payload(b) == text ==> SameText(a, b) {
      forall i', j' | DividesAt(text, i', j') ensures i' == i && j' == j {
        var b := DivisionIsYielded(text, i', j');
      }
    }
    if BarFree(a) {
      forall i', j' | DividesAt(text, i', j') ensures i' == i && j' == j {
        var b := DivisionIsYielded(text, i', j');
        TellingExactlyWithoutBars(a);
      }
    }
  }

  lemma PartsAgree(a: Identity, b: Identity)
    requires Payload(a) == Payload(b) && |a.fen| == |b.fen| && |Join(a.moves)| == |Join(b.moves)|
    ensures SameText(a, b)
  {
    Parts(a.fen, Join(a.moves), a.result);
    Parts(b.fen, Join(b.moves), b.result);
  }

  /** Two games whose FENs and cleaned moves hold no bar have one fingerprint exactly when FEN, result and the
      pieces of the moves agree. */
  lemma GameFingerprintTellsPieces(
      fen: string, moves: seq<string>, result: Option<string>, fen': string, moves': seq<string>, result': Option<string>)
    requires var a, b := IdentityOf(fen, moves, result), IdentityOf(fen', moves', result');
      '|' !in a.fen && '|' !in Join(a.moves) && '|' !in b.fen && '|' !in Join(b.moves)
    ensures GameFingerprint(fen, moves, result) == GameFingerprint(fen', moves', result') <==>
      && Strip(fen) == Strip(fen') && Pieces(CleanMoves(moves)) == Pieces(CleanMoves(moves'))
      && CleanResult(result) == CleanResult(result')
  {
    PayloadTellsParts(IdentityOf(fen, moves, result), IdentityOf(fen', moves', result'));
    JoinTellsPieces(CleanMoves(moves), CleanMoves(moves'));
  }

  /** The same for puzzles, which have no result: the moves text may even hold bars. */
  lemma PuzzleFingerprintTellsPieces(fen: string, moves: seq<string>, fen': string, moves': seq<string>)
    requires '|' !in Strip(fen) && '|' !in Strip(fen')
    ensures PuzzleFingerprint(fen, moves) == PuzzleFingerprint(fen', moves') <==>
      Strip(fen) == Strip(fen') && Pieces(CleanMoves(moves)) == Pieces(CleanMoves(moves'))
  {
    if PuzzleFingerprint(fen, moves) == PuzzleFingerprint(fen', moves') {
      SplitIsUnique('|', Strip(fen), Join(CleanMoves(moves)), Strip(fen'), Join(CleanMoves(moves')));
    }
    JoinTellsPieces(CleanMoves(moves), CleanMoves(moves'));
  }

  /** On chess text the pieces are the moves: two games have one fingerprint exactly when they have one identity. */
  lemma FingerprintIsIdentity(a: Identity, b: Identity)
    requires ChessText(a.fen, a.moves) && ChessText(b.fen, b.moves)
    ensures Payload(a) == Payload(b) <==> a == b
  {
    JoinHasNoBar(a.moves);
    JoinHasNoBar(b.moves);
    PayloadTellsParts(a, b);
    if Join(a.moves) == Join(b.moves) { JoinIsInjective(a.moves, b.moves); }
  }

  lemma PuzzleFingerprintIsIdentity(fen: string, moves: seq<string>, fen': string, moves': seq<string>)
    requires ChessText(Strip(fen), CleanMoves(moves)) && ChessText(Strip(fen'), CleanMoves(moves'))
    ensures PuzzleFingerprint(fen, moves) == PuzzleFingerprint(fen', moves') <==>
      Strip(fen) == Strip(fen') && CleanMoves(moves) == CleanMoves(moves')
  {
    if PuzzleFingerprint(fen, moves) == PuzzleFingerprint(fen', moves') {
      SplitIsUnique('|', Strip(fen), Join(CleanMoves(moves)), Strip(fen'), Join(CleanMoves(moves')));
      JoinIsInjective(CleanMoves(moves), CleanMoves(moves'));
    }
  }

  /** Two collisions: one move with a blank reads like two moves, and a bar in the FEN like the end of it. */
  lemma BlanksAndBarsCollide()
    ensures Payload(Identity("f", ["a b"], "*")) == Payload(Identity("f", ["a", "b"], "*"))
    ensures Payload(Identity("p|q", [], "r")) == Payload(Identity("p", ["q"], "|r"))
  {
    assert Join(["a", "b"]) == "a" + " " + Join(["b"]);
    assert "p|q" + "|" + "" + "|" + "r" == "p" + "|" + "q" + "|" + "|r";
  }
}
