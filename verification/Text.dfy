/** The string operations the catalog code uses: strip, lower, split, substring, and the alphanumeric collapse.

    Letters are ASCII. */
module Text {

  predicate IsSpace(c: char) {
    c == ' ' || c == '\t' || c == '\n' || c == '\r' || c == 11 as char || c == 12 as char
  }

  function LStrip(s: string): string {
    if |s| > 0 && IsSpace(s[0]) then LStrip(s[1..]) else s
  }

  function RStrip(s: string): string {
    if |s| > 0 && IsSpace(s[|s| - 1]) then RStrip(s[..|s| - 1]) else s
  }

  function Strip(s: string): string {
    RStrip(LStrip(s))
  }

  function LowerChar(c: char): char {
    if 'A' <= c <= 'Z' then (c as int + 32) as char else c
  }

  function Lower(s: string): (r: string)
    ensures |r| == |s|
  {
    if |s| == 0 then "" else [LowerChar(s[0])] + Lower(s[1..])
  }

  predicate IsAlnum(c: char) {
    'a' <= c <= 'z' || '0' <= c <= '9'
  }

  /** `re.sub("[^a-z0-9]+", " ", s)`; `gap` says whether the previous character was replaced. */
  function Collapse(s: string, gap: bool): string {
    if |s| == 0 then ""
    else if IsAlnum(s[0]) then [s[0]] + Collapse(s[1..], false)
    else (if gap then "" else " ") + Collapse(s[1..], true)
  }

  /** `str.split()`: the maximal runs without white space. */
  function Tokens(s: string): seq<string> {
    TokensFrom(s, "")
  }

  function TokensFrom(s: string, current: string): seq<string>
    decreases |s|
  {
    var done := if current == "" then [] else [current];
    if |s| == 0 then done
    else if IsSpace(s[0]) then done + TokensFrom(s[1..], "")
    else TokensFrom(s[1..], current + [s[0]])
  }

  function TokenSet(s: string): set<string> {
    set t | t in Tokens(s)
  }

  /** `needle in hay`. */
  predicate Contains(hay: string, needle: string) {
    exists i :: 0 <= i <= |hay| && OccursAt(hay, needle, i)
  }

  predicate OccursAt(hay: string, needle: string, i: nat) {
    i + |needle| <= |hay| && hay[i..i + |needle|] == needle
  }
}
