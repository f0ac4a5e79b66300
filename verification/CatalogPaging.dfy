/** Keyset pagination of the catalog search.

    Rows are the ones that pass the tenant, deletion and search filters, listed in the order of the query.
    The query sorts by the full timestamp; the cursor only remembers, and compares, whole seconds. */
module CatalogPaging {
  import opened Wrappers

  /** `created` counts microseconds; ids compare as their fixed-width hexadecimal text, so as numbers. */
  datatype Row = Row(created: int, id: nat)

  datatype Cursor = Cursor(second: int, id: nat)

  const MICROS := 1_000_000

  function Second(r: Row): int {
    r.created / MICROS
  }

  /** ORDER BY created_at DESC, id DESC. */
  ghost predicate Ordered(rows: seq<Row>) {
    forall i, j :: 0 <= i < j < |rows| ==>
      rows[i].created > rows[j].created || (rows[i].created == rows[j].created && rows[i].id > rows[j].id)
  }

  function CursorAt(r: Row): Cursor {
    Cursor(Second(r), r.id)
  }

  /** `_cursor_clause`. */
  predicate Beyond(c: Cursor, r: Row) {
    Second(r) < c.second || (Second(r) == c.second && r.id < c.id)
  }

  predicate Selected(cursor: Option<Cursor>, r: Row) {
    cursor.Some? ==> Beyond(cursor.value, r)
  }

  function Select(rows: seq<Row>, cursor: Option<Cursor>): (sel: seq<Row>)
    ensures forall r :: r in sel <==> r in rows && Selected(cursor, r)
    ensures |sel| <= |rows|
  {
    if |rows| == 0 then []
    else
      var rest := Select(rows[1..], cursor);
      if Selected(cursor, rows[0]) then [rows[0]] + rest else rest
  }

  datatype Page = Page(items: seq<Row>, next: Option<Cursor>, hasMore: bool)

  function Clamp(limit: int): (n: nat)
    ensures 1 <= n <= 100 && (1 <= limit <= 100 ==> n == limit)
    ensures (limit < 1 ==> n == 1) && (limit > 100 ==> n == 100)
  {
    if limit < 1 then 1 else if limit > 100 then 100 else limit
  }

  /** `search_games` and `search_puzzles`: read one row more than asked for, to learn whether there are more. */
  function Search(rows: seq<Row>, limit: int, cursor: Option<Cursor>): Page {
    var n := Clamp(limit);
    var sel := Select(rows, cursor);
    var read := if |sel| > n + 1 then sel[..n + 1] else sel;
    var hasMore := |read| > n;
    var items := if hasMore then read[..n] else read;
    Page(items, if hasMore then Some(CursorAt(items[n - 1])) else None, hasMore)
  }

  /** The page in terms of the selected rows: the first `n` of them, and a successor if there are more. */
  lemma SearchReturnsPrefix(rows: seq<Row>, limit: int, cursor: Option<Cursor>)
    ensures var n := Clamp(limit);
      var sel := Select(rows, cursor);
      Search(rows, limit, cursor) ==
        if |sel| > n then Page(sel[..n], Some(CursorAt(sel[n - 1])), true) else Page(sel, None, false)
  {
    var n := Clamp(limit);
    var sel := Select(rows, cursor);
    if |sel| > n + 1 { assert sel[..n + 1][..n] == sel[..n]; }
  }

  // ---- Walking the pages of an unchanging table ----

  /** `b` lies beyond the cursor that `a` leaves. */
  predicate Follows(a: Row, b: Row) {
    Beyond(CursorAt(a), b)
  }

  lemma SelectionIsTransitive(a: Row, b: Row, cursor: Option<Cursor>)
    requires Follows(a, b) && Selected(cursor, a)
    ensures Selected(cursor, b)
  {}

  lemma {:induction false} NarrowerSelection(rows: seq<Row>, cursor: Option<Cursor>, next: Option<Cursor>)
    requires forall r :: r in rows && Selected(next, r) ==> Selected(cursor, r)
    ensures |Select(rows, next)| <= |Select(rows, cursor)|
    ensures (exists r :: r in rows && Selected(cursor, r) && !Selected(next, r)) ==>
      |Select(rows, next)| < |Select(rows, cursor)|
  {
    if |rows| != 0 { NarrowerSelection(rows[1..], cursor, next); }
  }

  /** Every page with a successor leaves fewer rows to read: walking ends, whatever the stamps. */
  lemma PagesShrink(rows: seq<Row>, limit: int, cursor: Option<Cursor>)
    requires Search(rows, limit, cursor).next.Some?
    ensures |Select(rows, Search(rows, limit, cursor).next)| < |Select(rows, cursor)|
  {
    var page := Search(rows, limit, cursor);
    var last := page.items[|page.items| - 1];
    assert last in Select(rows, cursor);
    forall r | r in rows && Selected(page.next, r) ensures Selected(cursor, r) {
      SelectionIsTransitive(last, r, cursor);
    }
    NarrowerSelection(rows, cursor, page.next);
  }

  /** All pages from `cursor` on, the n-th one asked for with `limits(n)`. */
  function Walk(rows: seq<Row>, cursor: Option<Cursor>, limits: nat -> int, n: nat): seq<Row>
    decreases |Select(rows, cursor)|
  {
    var page := Search(rows, limits(n), cursor);
    if page.next.None? then page.items
    else
      PagesShrink(rows, limits(n), cursor);
      page.items + Walk(rows, page.next, limits, n + 1)
  }

  /** The order the cursor can see agrees with the order of the query. */
  ghost predicate CursorOrdered(rows: seq<Row>) {
    forall i, j :: 0 <= i < j < |rows| ==> Follows(rows[i], rows[j])
  }

  ghost predicate WholeSeconds(rows: seq<Row>) {
    forall i :: 0 <= i < |rows| ==> rows[i].created % MICROS == 0
  }

  lemma WholeSecondsSuffice(rows: seq<Row>)
    requires Ordered(rows) && WholeSeconds(rows)
    ensures CursorOrdered(rows)
  {
    forall i, j | 0 <= i < j < |rows| ensures Follows(rows[i], rows[j]) {
      assert rows[i].created == MICROS * Second(rows[i]) && rows[j].created == MICROS * Second(rows[j]);
    }
  }

  lemma {:induction false} SelectAll(rows: seq<Row>, cursor: Option<Cursor>)
    requires forall r :: r in rows ==> Selected(cursor, r)
    ensures Select(rows, cursor) == rows
  {
    if |rows| != 0 { SelectAll(rows[1..], cursor); }
  }

  lemma {:induction false} SelectSuffix(rows: seq<Row>, k: nat)
    requires CursorOrdered(rows) && k < |rows|
    ensures Select(rows, Some(CursorAt(rows[k]))) == rows[k + 1..]
  {
    if k == 0 {
      SelectAll(rows[1..], Some(CursorAt(rows[0])));
    } else {
      assert Follows(rows[0], rows[k]);
      SelectSuffix(rows[1..], k - 1);
      assert rows[1..][k..] == rows[k + 1..];
    }
  }

  /** What is left to walk once the first `k` rows have been returned. */
  function After(rows: seq<Row>, k: nat): Option<Cursor>
    requires k <= |rows|
  {
    if k == 0 then None else Some(CursorAt(rows[k - 1]))
  }

  lemma {:induction false} WalkReturnsSuffix(rows: seq<Row>, k: nat, limits: nat -> int, n: nat)
    requires CursorOrdered(rows) && k <= |rows|
    ensures Walk(rows, After(rows, k), limits, n) == rows[k..]
    decreases |rows| - k
  {
    hide Search, Select;
    var cursor := After(rows, k);
    if k == 0 { SelectAll(rows, None); } else { SelectSuffix(rows, k - 1); }
    var sel := Select(rows, cursor);
    assert sel == rows[k..];
    SearchReturnsPrefix(rows, limits(n), cursor);
    var size := Clamp(limits(n));
    if size < |sel| {
      assert sel[size - 1] == rows[k + size - 1];
      WalkReturnsSuffix(rows, k + size, limits, n + 1);
      assert sel == sel[..size] + rows[k + size..];
    }
  }

  lemma OrderedConcat(xs: seq<Row>, ys: seq<Row>)
    requires CursorOrdered(xs) && CursorOrdered(ys) && |xs| > 0
    requires forall y :: y in ys ==> Follows(xs[|xs| - 1], y)
    ensures CursorOrdered(xs + ys)
  {
    forall i, j | 0 <= i < j < |xs + ys| ensures Follows((xs + ys)[i], (xs + ys)[j]) {
      if j >= |xs| {
        assert ys[j - |xs|] in ys;
      }
      if i < |xs| - 1 && j >= |xs| {
        assert Follows(xs[i], xs[|xs| - 1]) && Follows(xs[|xs| - 1], ys[j - |xs|]);
      }
    }
  }

  /** One row to a page: consecutive rows of the walk are beyond one another's cursor. */
  lemma {:induction false} SingleRowWalkIsCursorOrdered(rows: seq<Row>, cursor: Option<Cursor>, limits: nat -> int, n: nat)
    requires forall m: nat :: limits(m) == 1
    ensures var walk := Walk(rows, cursor, limits, n);
      CursorOrdered(walk) && forall r :: r in walk ==> Selected(cursor, r)
    decreases |Select(rows, cursor)|
  {
    hide Search, Select;
    var page := Search(rows, 1, cursor);
    SearchReturnsPrefix(rows, 1, cursor);
    assert limits(n) == 1;
    if page.next.Some? {
      PagesShrink(rows, 1, cursor);
      SingleRowWalkIsCursorOrdered(rows, page.next, limits, n + 1);
      var first := page.items[0];
      var rest := Walk(rows, page.next, limits, n + 1);
      assert first in Select(rows, cursor) && page.items == [first];
      OrderedConcat([first], rest);
      forall r | r in rest ensures Selected(cursor, r) { SelectionIsTransitive(first, r, cursor); }
    }
  }

  /** Whatever page sizes the client picks, the walk is the whole list, in order and each row once. */
  ghost predicate WalksAreComplete(rows: seq<Row>) {
    forall limits: nat -> int :: Walk(rows, None, limits, 0) == rows
  }

  /** Main result.  Walks are complete exactly when the order the cursor can see agrees with the order of the
      query; whole-second stamps are enough for that. */
  lemma WalkReturnsEverything(rows: seq<Row>)
    ensures WalksAreComplete(rows) <==>
      forall i, j :: 0 <= i < j < |rows| ==>
        var earlier, later := rows[i].created / 1_000_000, rows[j].created / 1_000_000;
        later < earlier || (later == earlier && rows[j].id < rows[i].id)
    ensures Ordered(rows) && WholeSeconds(rows) ==> WalksAreComplete(rows)
  {
    if Ordered(rows) && WholeSeconds(rows) { WholeSecondsSuffice(rows); }
    forall i, j | 0 <= i < j < |rows| && CursorOrdered(rows) ensures Follows(rows[i], rows[j]) {}
    if CursorOrdered(rows) {
      forall limits: nat -> int ensures Walk(rows, None, limits, 0) == rows {
        WalkReturnsSuffix(rows, 0, limits, 0);
      }
    }
    var single: nat -> int := (m: nat) => 1;
    SingleRowWalkIsCursorOrdered(rows, None, single, 0);
    assert WalksAreComplete(rows) ==> Walk(rows, None, single, 0) == rows;
  }

  /** Two games stored within one second, the later one with the smaller id: the earlier one is skipped. */
  lemma SubSecondRowIsSkipped()
    ensures var rows := [Row(1_500_000, 1), Row(1_200_000, 2)];
      Ordered(rows) && Walk(rows, None, _ => 1, 0) == [rows[0]]
  {
    var rows := [Row(1_500_000, 1), Row(1_200_000, 2)];
    SelectAll(rows, None);
    var page := Search(rows, 1, None);
    assert page.items == [rows[0]] && page.next == Some(Cursor(1, 1));
    assert Select(rows[1..], page.next) == [];
    assert Select(rows, page.next) == [];
    assert Walk(rows, page.next, _ => 1, 1) == [];
  }

  // ---- Walking while rows come and go ----

  datatype Walked = Walked(rows: seq<Row>, finished: bool)

  /** One page from each snapshot, until a page has no successor or the snapshots run out. */
  function WalkOver(snaps: seq<seq<Row>>, cursor: Option<Cursor>, limits: nat -> int, n: nat): Walked
    decreases |snaps|
  {
    if |snaps| == 0 then Walked([], false)
    else
      var page := Search(snaps[0], limits(n), cursor);
      if page.next.None? then Walked(page.items, true)
      else
        var rest := WalkOver(snaps[1..], page.next, limits, n + 1);
        Walked(page.items + rest.rows, rest.finished)
  }

  lemma {:induction false} SelectKeepsOrder(rows: seq<Row>, cursor: Option<Cursor>)
    requires CursorOrdered(rows)
    ensures CursorOrdered(Select(rows, cursor))
  {
    if |rows| != 0 {
      SelectKeepsOrder(rows[1..], cursor);
      var rest := Select(rows[1..], cursor);
      forall r | r in rest ensures Follows(rows[0], r) { assert r in rows[1..]; }
      OrderedConcat([rows[0]], rest);
    }
  }

  /** Present in every snapshot. */
  ghost predicate Persists(snaps: seq<seq<Row>>, r: Row) {
    forall k :: 0 <= k < |snaps| ==> r in snaps[k]
  }

  /** Present in some snapshot. */
  ghost predicate Occurs(snaps: seq<seq<Row>>, r: Row) {
    exists k :: 0 <= k < |snaps| && r in snaps[k]
  }

  ghost predicate Faithful(snaps: seq<seq<Row>>, cursor: Option<Cursor>, walked: Walked) {
    && CursorOrdered(walked.rows)
    && (forall r :: r in walked.rows ==> Selected(cursor, r) && Occurs(snaps, r))
    && (walked.finished ==> forall r :: Persists(snaps, r) && Selected(cursor, r) ==> r in walked.rows)
  }

  /** A first page in front of a faithful walk of what lies beyond it. */
  lemma PageThenRest(snaps: seq<seq<Row>>, cursor: Option<Cursor>, size: nat, rest: Walked)
    requires |snaps| != 0 && CursorOrdered(snaps[0])
    requires 0 < size < |Select(snaps[0], cursor)|
    requires Faithful(snaps[1..], Some(CursorAt(Select(snaps[0], cursor)[size - 1])), rest)
    ensures Faithful(snaps, cursor, Walked(Select(snaps[0], cursor)[..size] + rest.rows, rest.finished))
  {
    var sel := Select(snaps[0], cursor);
    var items := sel[..size];
    var last := items[size - 1];
    SelectKeepsOrder(snaps[0], cursor);
    assert last in sel;
    OrderedConcat(items, rest.rows);
    forall r | r in items ensures Selected(cursor, r) && Occurs(snaps, r) { assert r in sel && r in snaps[0]; }
    forall r | r in rest.rows ensures Selected(cursor, r) && Occurs(snaps, r) {
      SelectionIsTransitive(last, r, cursor);
      var k :| 0 <= k < |snaps[1..]| && r in snaps[1..][k];
      assert r in snaps[k + 1];
    }
    if rest.finished {
      forall r | Persists(snaps, r) && Selected(cursor, r) ensures r in items + rest.rows {
        assert r in snaps[0] && r in sel;
        var i :| 0 <= i < |sel| && sel[i] == r;
        if i < size { assert r == items[i]; } else { assert Follows(last, r) && Persists(snaps[1..], r); }
      }
    }
  }

  /** A page without a successor holds everything that is left. */
  lemma LastPage(snaps: seq<seq<Row>>, cursor: Option<Cursor>)
    requires |snaps| != 0 && CursorOrdered(snaps[0])
    ensures Faithful(snaps, cursor, Walked(Select(snaps[0], cursor), true))
  {
    SelectKeepsOrder(snaps[0], cursor);
    forall r | r in Select(snaps[0], cursor) ensures Occurs(snaps, r) { assert r in snaps[0]; }
  }

  lemma NoPage(cursor: Option<Cursor>)
    ensures Faithful([], cursor, Walked([], false))
  {}

  /** Main result.  Whatever is inserted or deleted between the pages, the walk lists its rows in strictly
      descending order, so none twice, and lists nothing that was never there; and once it has finished, every
      row that was present throughout is among them. */
  lemma {:induction false} WalkSurvivesChanges(snaps: seq<seq<Row>>, cursor: Option<Cursor>, limits: nat -> int, n: nat)
    requires forall k :: 0 <= k < |snaps| ==> CursorOrdered(snaps[k])
    ensures Faithful(snaps, cursor, WalkOver(snaps, cursor, limits, n))
    decreases |snaps|
  {
    hide Search, Select, Faithful;
    if |snaps| != 0 {
      var sel := Select(snaps[0], cursor);
      SearchReturnsPrefix(snaps[0], limits(n), cursor);
      SelectKeepsOrder(snaps[0], cursor);
      var next := Search(snaps[0], limits(n), cursor).next;
      if next.Some? {
        WalkSurvivesChanges(snaps[1..], next, limits, n + 1);
        PageThenRest(snaps, cursor, Clamp(limits(n)), WalkOver(snaps[1..], next, limits, n + 1));
      } else {
        LastPage(snaps, cursor);
      }
    } else {
      NoPage(cursor);
    }
  }

  // ---- Walks end ----

  function Members(rows: seq<Row>): set<Row> {
    set r | r in rows
  }

  lemma {:induction false} MembersCount(rows: seq<Row>)
    ensures |Members(rows)| <= |rows|
    ensures CursorOrdered(rows) ==> |Members(rows)| == |rows|
  {
    if |rows| > 0 {
      var n := |rows| - 1;
      var init := rows[..n];
      MembersCount(init);
      assert Members(rows) == Members(init) + {rows[n]} by { assert rows == init + [rows[n]]; }
      if CursorOrdered(rows) {
        forall r | r in init ensures r != rows[n] {
          var i :| 0 <= i < n && rows[i] == r;
          assert Follows(rows[i], rows[n]);
        }
      }
    }
  }

  lemma {:induction false} SmallerSet(a: set<Row>, b: set<Row>)
    requires a <= b
    ensures |a| <= |b|
  {
    if a != {} {
      var r :| r in a;
      SmallerSet(a - {r}, b - {r});
    }
  }

  /** Whatever appears between two pages lies before the cursor: beyond it the later snapshot holds nothing new. */
  predicate NewRowsLieBefore(snaps: seq<seq<Row>>, cursor: Option<Cursor>, limits: nat -> int, n: nat)
    decreases |snaps|
  {
    |snaps| <= 1
    || var next := Search(snaps[0], limits(n), cursor).next;
       next.Some? ==>
         && (forall r :: r in snaps[1] && Selected(next, r) ==> r in snaps[0])
         && NewRowsLieBefore(snaps[1..], next, limits, n + 1)
  }

  lemma NothingNewBeyond(earlier: seq<Row>, later: seq<Row>, next: Option<Cursor>)
    requires CursorOrdered(later) && forall r :: r in later && Selected(next, r) ==> r in earlier
    ensures |Select(later, next)| <= |Select(earlier, next)|
  {
    SelectKeepsOrder(later, next);
    MembersCount(Select(later, next));
    MembersCount(Select(earlier, next));
    SmallerSet(Members(Select(later, next)), Members(Select(earlier, next)));
  }

  /** The walk finishes within one page more than there were rows to list at the start. */
  lemma {:induction false} WalkFinishes(snaps: seq<seq<Row>>, cursor: Option<Cursor>, limits: nat -> int, n: nat)
    requires forall k :: 0 <= k < |snaps| ==> CursorOrdered(snaps[k])
    requires NewRowsLieBefore(snaps, cursor, limits, n)
    requires |snaps| > 0 && |snaps| > |Select(snaps[0], cursor)|
    ensures WalkOver(snaps, cursor, limits, n).finished
    decreases |snaps|
  {
    var next := Search(snaps[0], limits(n), cursor).next;
    if next.Some? {
      PagesShrink(snaps[0], limits(n), cursor);
      hide Search, Select;
      NothingNewBeyond(snaps[0], snaps[1], next);
      WalkFinishes(snaps[1..], next, limits, n + 1);
    }
  }

  /** Every row of the later snapshot is in the earlier one, or comes before all of it. */
  ghost predicate OnlyNewer(earlier: seq<Row>, later: seq<Row>) {
    forall r, x :: r in later && r !in earlier && x in earlier ==> Follows(r, x)
  }

  ghost predicate OnlyNewerArrive(snaps: seq<seq<Row>>)
    decreases |snaps|
  {
    |snaps| <= 1 || (OnlyNewer(snaps[0], snaps[1]) && OnlyNewerArrive(snaps[1..]))
  }

  lemma OneFollows(a: Row, b: Row)
    ensures !Follows(a, b) || !Follows(b, a)
  {}

  lemma {:induction false} NewerLieBefore(snaps: seq<seq<Row>>, cursor: Option<Cursor>, limits: nat -> int, n: nat)
    requires OnlyNewerArrive(snaps)
    ensures NewRowsLieBefore(snaps, cursor, limits, n)
    decreases |snaps|
  {
    if |snaps| > 1 {
      var page := Search(snaps[0], limits(n), cursor);
      if page.next.Some? {
        var last := page.items[|page.items| - 1];
        assert last in Select(snaps[0], cursor);
        forall r | r in snaps[1] && Selected(page.next, r) ensures r in snaps[0] {
          OneFollows(last, r);
        }
        NewerLieBefore(snaps[1..], page.next, limits, n + 1);
      }
    }
  }

  /** Main result.  While only newer rows arrive (and any rows go), a walk from the start with any page sizes
      finishes within one page more than there were rows at first, lists everything in order and nothing twice,
      and lists every row that was there at first and stayed. */
  lemma WalkListsEveryStayingRow(snaps: seq<seq<Row>>, limits: nat -> int)
    requires forall k :: 0 <= k < |snaps| ==> CursorOrdered(snaps[k])
    requires OnlyNewerArrive(snaps) && |snaps| > 0 && |snaps| > |snaps[0]|
    ensures var walked := WalkOver(snaps, None, limits, 0);
      walked.finished && CursorOrdered(walked.rows) && forall r :: Persists(snaps, r) ==> r in walked.rows
  {
    NewerLieBefore(snaps, None, limits, 0);
    WalkFinishes(snaps, None, limits, 0);
    WalkSurvivesChanges(snaps, None, limits, 0);
  }
}
