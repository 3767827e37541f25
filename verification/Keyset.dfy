/**
 * Keyset pagination in general: every page is ORDER BY ... LIMIT limit + 1 over the rows after the
 * previous page's last row. `before` is the order of the sort keys; within one table no two rows tie.
 */
module Keyset {
  import opened Prelude
  import opened OrderedRows

  /** The laws of a strict weak order for three given rows. */
  predicate Laws<T>(before: (T, T) -> bool, a: T, b: T, c: T) {
    && !before(a, a)
    && (before(a, b) && before(b, c) ==> before(a, c))
    && (before(a, b) ==> before(a, c) || before(c, b))
  }

  ghost predicate WeakOrder<T(!new)>(before: (T, T) -> bool) {
    forall a, b, c {:trigger Laws(before, a, b, c)} :: Laws(before, a, b, c)
  }

  /** Same sort key. */
  predicate Tie<T>(before: (T, T) -> bool, a: T, b: T) {
    !before(a, b) && !before(b, a)
  }

  ghost predicate NoTies<T>(before: (T, T) -> bool, rows: set<T>) {
    forall a, b :: a in rows && b in rows && a != b ==> !Tie(before, a, b)
  }

  ghost predicate Ascending<T>(before: (T, T) -> bool, s: seq<T>) {
    forall i, j :: 0 <= i < j < |s| ==> before(s[i], s[j])
  }

  ghost predicate IsListing<T(!new)>(before: (T, T) -> bool, rows: set<T>, s: seq<T>) {
    Ascending(before, s) && forall x :: x in s <==> x in rows
  }

  lemma {:induction false} FirstRow<T(!new)>(before: (T, T) -> bool, rows: set<T>) returns (m: T)
    requires WeakOrder(before) && NoTies(before, rows) && rows != {}
    ensures m in rows && forall x :: x in rows && x != m ==> before(m, x)
    decreases rows
  {
    var r :| r in rows;
    m := r;
    if rows != {r} {
      var n := FirstRow(before, rows - {r});
      if !before(r, n) {
        m := n;
        assert !Tie(before, r, n);
      } else {
        forall x | x in rows && x != r ensures before(r, x) { assert Laws(before, r, n, x); }
      }
    }
  }

  lemma {:induction false} ListingExists<T(!new)>(before: (T, T) -> bool, rows: set<T>)
    requires WeakOrder(before) && NoTies(before, rows)
    ensures exists s :: IsListing(before, rows, s)
    decreases rows
  {
    if rows == {} {
      assert IsListing(before, rows, []);
    } else {
      var m := FirstRow(before, rows);
      ListingExists(before, rows - {m});
      var rest :| IsListing(before, rows - {m}, rest);
      assert IsListing(before, rows, [m] + rest);
    }
  }

  /** A set of rows has one ordered listing. */
  lemma {:induction false} ListingUnique<T(!new)>(before: (T, T) -> bool, rows: set<T>, s: seq<T>, t: seq<T>)
    requires WeakOrder(before) && IsListing(before, rows, s) && IsListing(before, rows, t)
    ensures s == t
    decreases |s|
  {
    ListingEmpty(before, rows, s);
    ListingEmpty(before, rows, t);
    if s != [] {
      SameHead(before, rows, s, t);
      TailIsListing(before, rows, s);
      TailIsListing(before, rows, t);
      ListingUnique(before, rows - {s[0]}, s[1..], t[1..]);
    }
  }

  lemma ListingEmpty<T(!new)>(before: (T, T) -> bool, rows: set<T>, s: seq<T>)
    requires IsListing(before, rows, s)
    ensures s == [] <==> rows == {}
  {
    if s != [] { assert s[0] in s; }
  }

  lemma SameHead<T(!new)>(before: (T, T) -> bool, rows: set<T>, s: seq<T>, t: seq<T>)
    requires WeakOrder(before) && IsListing(before, rows, s) && IsListing(before, rows, t) && s != [] && t != []
    ensures s[0] == t[0]
  {
    assert s[0] in rows && t[0] in rows;
    var i :| 0 <= i < |t| && t[i] == s[0];
    var j :| 0 <= j < |s| && s[j] == t[0];
    if i > 0 && j > 0 {
      assert Laws(before, s[0], t[0], s[0]);
    }
  }

  lemma TailIsListing<T(!new)>(before: (T, T) -> bool, rows: set<T>, s: seq<T>)
    requires WeakOrder(before) && IsListing(before, rows, s) && s != []
    ensures IsListing(before, rows - {s[0]}, s[1..])
  {
    forall x ensures x in s[1..] <==> x in rows - {s[0]} {
      assert Laws(before, x, x, x);
      if x in rows - {s[0]} {
        var i :| 0 <= i < |s| && s[i] == x;
        assert s[1..][i - 1] == x;
      }
    }
  }

  /** ORDER BY. */
  ghost function Listing<T(!new)>(before: (T, T) -> bool, rows: set<T>): (s: seq<T>)
    requires WeakOrder(before) && NoTies(before, rows)
    ensures IsListing(before, rows, s)
  {
    ListingExists(before, rows);
    var s :| IsListing(before, rows, s);
    s
  }

  /** LIMIT limit + 1 tells whether a further page exists; the extra row is cut off. */
  ghost function Fetch<T(!new)>(before: (T, T) -> bool, rows: set<T>, limit: nat): (p: Page<T>)
    requires WeakOrder(before) && NoTies(before, rows)
  {
    Cut(Take(Listing(before, rows), limit + 1), limit)
  }

  ghost function After<T>(before: (T, T) -> bool, rows: set<T>, cursor: Option<T>): set<T> {
    set x | x in rows && (cursor.None? || before(cursor.value, x))
  }

  /** A page with a successor is full, so its last row can serve as the next cursor. */
  lemma FetchedPage<T(!new)>(before: (T, T) -> bool, rows: set<T>, limit: nat)
    requires WeakOrder(before) && NoTies(before, rows) && limit >= 1
    ensures var p := Fetch(before, rows, limit);
            && p.rows == Take(Listing(before, rows), limit)
            && (p.hasNext <==> |Listing(before, rows)| > limit)
            && (p.hasNext ==> |p.rows| == limit)
  {
  }

  // ---- Following cursors while the table changes ----------------------------------------------------

  /** The cursor of page i: the last row of page i - 1. */
  function CursorOf<T>(pages: seq<seq<T>>, i: nat): Option<T>
    requires i <= |pages|
  {
    if i == 0 || pages[i - 1] == [] then None else Some(pages[i - 1][|pages[i - 1]| - 1])
  }

  /**
   * `tables[i]` is the table at the time page i is fetched; every page but the last has a successor, and
   * the last has one if there is `more`.
   */
  ghost predicate Following<T(!new)>(before: (T, T) -> bool, tables: seq<set<T>>, pages: seq<seq<T>>, limit: nat,
                                     more: bool) {
    && limit >= 1 && WeakOrder(before) && |tables| == |pages| > 0
    && (forall i :: 0 <= i < |tables| ==> NoTies(before, tables[i]))
    && forall i :: 0 <= i < |pages| ==> FetchedAt(before, tables, pages, limit, more, i)
  }

  /** Page i is fetched from table i with the cursor of the page before. */
  ghost predicate FetchedAt<T(!new)>(before: (T, T) -> bool, tables: seq<set<T>>, pages: seq<seq<T>>, limit: nat,
                                     more: bool, i: nat)
    requires i < |pages| == |tables| && WeakOrder(before) && NoTies(before, tables[i])
  {
    IsPage(Fetch(before, After(before, tables[i], CursorOf(pages, i)), limit), pages[i], more || i + 1 < |pages|)
  }

  /** Cursors followed to the end. */
  ghost predicate Traversal<T(!new)>(before: (T, T) -> bool, tables: seq<set<T>>, pages: seq<seq<T>>, limit: nat) {
    Following(before, tables, pages, limit, false)
  }

  predicate IsPage<T(==)>(page: Page<T>, rows: seq<T>, hasNext: bool) {
    page.rows == rows && page.hasNext == hasNext
  }

  function Flatten<T>(pages: seq<seq<T>>): seq<T> {
    if pages == [] then [] else Flatten(pages[..|pages| - 1]) + pages[|pages| - 1]
  }

  lemma PageFacts<T(!new)>(before: (T, T) -> bool, tables: seq<set<T>>, pages: seq<seq<T>>, limit: nat, i: nat)
    requires Traversal(before, tables, pages, limit) && i < |pages|
    ensures Ascending(before, pages[i])
    ensures forall x :: x in pages[i] ==> x in After(before, tables[i], CursorOf(pages, i))
    ensures i + 1 < |pages| ==> pages[i] != [] && CursorOf(pages, i + 1) == Some(pages[i][|pages[i]| - 1])
  {
    var rows := After(before, tables[i], CursorOf(pages, i));
    assert FetchedAt(before, tables, pages, limit, false, i);
    FetchedPage(before, rows, limit);
    forall x | x in pages[i] ensures x in rows {
      assert x in Listing(before, rows);
    }
  }

  /** Every row met so far is at or before the next cursor. */
  lemma {:induction false} NeverBackwards<T(!new)>(before: (T, T) -> bool, tables: seq<set<T>>, pages: seq<seq<T>>,
                                                   limit: nat, n: nat)
    requires Traversal(before, tables, pages, limit) && n <= |pages|
    ensures Ascending(before, Flatten(pages[..n]))
    ensures forall x :: x in Flatten(pages[..n]) ==>
            n > 0 && (CursorOf(pages, n).Some? ==> !before(CursorOf(pages, n).value, x))
    decreases n
  {
    if n > 0 {
      assert pages[..n][..n - 1] == pages[..n - 1];
      NeverBackwards(before, tables, pages, limit, n - 1);
      PageFacts(before, tables, pages, limit, n - 1);
      if n > 1 { PageFacts(before, tables, pages, limit, n - 2); }
      PageExtends(before, Flatten(pages[..n - 1]), CursorOf(pages, n - 1), pages[n - 1]);
    }
  }

  lemma PageExtends<T(!new)>(before: (T, T) -> bool, shown: seq<T>, cursor: Option<T>, page: seq<T>)
    requires WeakOrder(before) && Ascending(before, shown) && Ascending(before, page)
    requires cursor.None? ==> shown == []
    requires cursor.Some? ==>
            (forall x :: x in shown ==> !before(cursor.value, x)) && (forall y :: y in page ==> before(cursor.value, y))
    ensures Ascending(before, shown + page)
    ensures page != [] ==> forall x :: x in shown + page ==> !before(page[|page| - 1], x)
  {
    var all := shown + page;
    forall x, y | x in shown && y in page ensures before(x, y) {
      assert Laws(before, cursor.value, y, x);
    }
    forall x | x in all && page != [] ensures !before(page[|page| - 1], x) {
      var last := page[|page| - 1];
      assert Laws(before, last, last, last) && Laws(before, last, x, last);
      if x in shown {
        assert before(x, last);
      } else {
        var k :| 0 <= k < |page| && page[k] == x;
        assert k < |page| - 1 ==> before(x, last);
      }
    }
  }

  ghost predicate Present<T(!new)>(before: (T, T) -> bool, rows: set<T>, x: T) {
    exists y :: y in rows && Tie(before, x, y)
  }

  /** A row's key is present in every table, unchanged. */
  ghost predicate StaysPut<T(!new)>(before: (T, T) -> bool, tables: seq<set<T>>, x: T) {
    forall i :: 0 <= i < |tables| ==> Present(before, tables[i], x)
  }

  ghost predicate Shown<T(!new)>(before: (T, T) -> bool, s: seq<T>, x: T) {
    exists y :: y in s && Tie(before, x, y)
  }

  lemma {:induction false} ShownOrAhead<T(!new)>(before: (T, T) -> bool, tables: seq<set<T>>, pages: seq<seq<T>>,
                                                 limit: nat, n: nat, x: T)
    requires Traversal(before, tables, pages, limit) && n <= |pages| && StaysPut(before, tables, x)
    ensures Shown(before, Flatten(pages[..n]), x)
            || (n < |pages| && (CursorOf(pages, n).Some? ==> before(CursorOf(pages, n).value, x)))
    decreases n
  {
    if n > 0 {
      assert pages[..n][..n - 1] == pages[..n - 1];
      ShownOrAhead(before, tables, pages, limit, n - 1, x);
      if Shown(before, Flatten(pages[..n - 1]), x) {
        var y :| y in Flatten(pages[..n - 1]) && Tie(before, x, y);
        assert y in Flatten(pages[..n]);
      } else {
        ShownOnPageOrAhead(before, tables, pages, limit, n - 1, x);
        if Shown(before, pages[n - 1], x) {
          var y :| y in pages[n - 1] && Tie(before, x, y);
          assert y in Flatten(pages[..n]);
        }
      }
    }
  }

  lemma ShownOnPageOrAhead<T(!new)>(before: (T, T) -> bool, tables: seq<set<T>>, pages: seq<seq<T>>, limit: nat,
                                    i: nat, x: T)
    requires Traversal(before, tables, pages, limit) && i < |pages| && StaysPut(before, tables, x)
    requires CursorOf(pages, i).Some? ==> before(CursorOf(pages, i).value, x)
    ensures Shown(before, pages[i], x)
            || (i + 1 < |pages| && CursorOf(pages, i + 1).Some? && before(CursorOf(pages, i + 1).value, x))
  {
    assert Present(before, tables[i], x);
    var y :| y in tables[i] && Tie(before, x, y);
    var cursor := CursorOf(pages, i);
    if cursor.Some? { assert Laws(before, cursor.value, x, y); }
    var rows := After(before, tables[i], cursor);
    assert y in rows && FetchedAt(before, tables, pages, limit, false, i);
    FetchedPage(before, rows, limit);
    PageFacts(before, tables, pages, limit, i);
    var all := Listing(before, rows);
    var k :| 0 <= k < |all| && all[k] == y;
    if k < |pages[i]| {
      assert pages[i][k] == y;
    } else {
      assert before(all[limit - 1], y) && Laws(before, all[limit - 1], y, x);
    }
  }

  /**
   * Following cursors to the end, with rows inserted, deleted or edited between pages: no sort key
   * is shown twice, the output is in order, and every row that stayed put is shown.
   */
  lemma TraversalIsComplete<T(!new)>(before: (T, T) -> bool, tables: seq<set<T>>, pages: seq<seq<T>>, limit: nat)
    requires Traversal(before, tables, pages, limit)
    ensures Ascending(before, Flatten(pages))
    ensures forall x :: StaysPut(before, tables, x) ==> Shown(before, Flatten(pages), x)
  {
    var n := |pages|;
    assert pages[..n] == pages;
    NeverBackwards(before, tables, pages, limit, n);
    forall x | StaysPut(before, tables, x) ensures Shown(before, Flatten(pages), x) {
      ShownOrAhead(before, tables, pages, limit, n, x);
    }
  }

  lemma {:induction false} ShownRowsExist<T(!new)>(before: (T, T) -> bool, tables: seq<set<T>>, pages: seq<seq<T>>,
                                                   limit: nat, n: nat, x: T)
    requires Traversal(before, tables, pages, limit) && n <= |pages| && x in Flatten(pages[..n])
    ensures exists i :: 0 <= i < n && x in tables[i]
    decreases n
  {
    assert n > 0 && pages[..n][..n - 1] == pages[..n - 1];
    if x in pages[n - 1] {
      PageFacts(before, tables, pages, limit, n - 1);
    } else {
      ShownRowsExist(before, tables, pages, limit, n - 1, x);
    }
  }

  /** On an unchanging table the pages put together are the whole ordered listing, for every page size. */
  lemma PagesAreTheListing<T(!new)>(before: (T, T) -> bool, rows: set<T>, tables: seq<set<T>>, pages: seq<seq<T>>,
                                    limit: nat)
    requires Traversal(before, tables, pages, limit)
    requires forall i :: 0 <= i < |tables| ==> tables[i] == rows
    ensures NoTies(before, rows) && Flatten(pages) == Listing(before, rows)
  {
    assert tables[0] == rows;
    TraversalIsComplete(before, tables, pages, limit);
    var out := Flatten(pages);
    forall x ensures x in out <==> x in rows {
      if x in out {
        assert pages[..|pages|] == pages;
        ShownRowsExist(before, tables, pages, limit, |pages|, x);
      }
      if x in rows {
        assert Laws(before, x, x, x);
        assert Present(before, rows, x);
        assert StaysPut(before, tables, x);
        assert Shown(before, out, x);
        var y :| y in out && Tie(before, x, y);
        assert pages[..|pages|] == pages;
        ShownRowsExist(before, tables, pages, limit, |pages|, y);
      }
    }
    ListingUnique(before, rows, out, Listing(before, rows));
  }

  // ---- On an unchanging table, following ends --------------------------------------------------------

  lemma {:induction false} ListingLength<T(!new)>(before: (T, T) -> bool, rows: set<T>, s: seq<T>)
    requires WeakOrder(before) && IsListing(before, rows, s)
    ensures |s| == |rows|
    decreases |s|
  {
    ListingEmpty(before, rows, s);
    if s != [] {
      TailIsListing(before, rows, s);
      ListingLength(before, rows - {s[0]}, s[1..]);
      assert s[0] in rows;
    }
  }

  /** The rows after row j - 1 of the listing are the listing from j on. */
  lemma RestOfListing<T(!new)>(before: (T, T) -> bool, rows: set<T>, j: nat)
    requires WeakOrder(before) && NoTies(before, rows) && j <= |Listing(before, rows)|
    ensures var all := Listing(before, rows);
            var cursor := if j == 0 then None else Some(all[j - 1]);
            NoTies(before, After(before, rows, cursor)) && Listing(before, After(before, rows, cursor)) == all[j..]
  {
    var all := Listing(before, rows);
    var cursor := if j == 0 then None else Some(all[j - 1]);
    var rest := After(before, rows, cursor);
    forall x ensures x in all[j..] <==> x in rest {
      if x in all {
        var k :| 0 <= k < |all| && all[k] == x;
        if j > 0 { assert Laws(before, all[j - 1], all[k], all[j - 1]); }
        assert k >= j ==> all[j..][k - j] == x;
      }
    }
    ListingUnique(before, rest, Listing(before, rest), all[j..]);
  }

  /** How many pages hold `n` rows; an empty list is one empty page. */
  function PageCount(n: nat, limit: nat): nat
    requires limit >= 1
  {
    if n <= limit then 1 else 1 + PageCount(n - limit, limit)
  }

  lemma {:induction false} PageCountIsCeiling(n: nat, limit: nat)
    requires limit >= 1
    ensures PageCount(n, limit) >= 1
    ensures n >= 1 ==> (PageCount(n, limit) - 1) * limit < n <= PageCount(n, limit) * limit
    decreases n
  {
    if n > limit {
      PageCountIsCeiling(n - limit, limit);
      var k := PageCount(n - limit, limit);
      assert (k + 1) * limit == k * limit + limit && k * limit == (k - 1) * limit + limit;
    }
  }

  /** The row at which page i starts: i * limit. */
  function StartOf(i: nat, limit: nat): nat {
    if i == 0 then 0 else StartOf(i - 1, limit) + limit
  }

  lemma PageFrom<T(!new)>(before: (T, T) -> bool, rows: set<T>, limit: nat, j: nat, cursor: Option<T>)
    requires WeakOrder(before) && NoTies(before, rows) && limit >= 1 && j <= |Listing(before, rows)|
    requires cursor == if j == 0 then None else Some(Listing(before, rows)[j - 1])
    ensures NoTies(before, After(before, rows, cursor))
    ensures IsPage(Fetch(before, After(before, rows, cursor), limit),
                   Take(Listing(before, rows)[j..], limit), |Listing(before, rows)| > j + limit)
  {
    RestOfListing(before, rows, j);
    FetchedPage(before, After(before, rows, cursor), limit);
  }

  /** Page i is what the rows themselves say. */
  ghost predicate PageIsRight<T(!new)>(before: (T, T) -> bool, rows: set<T>, pages: seq<seq<T>>, limit: nat,
                                       more: bool, i: nat)
    requires WeakOrder(before) && NoTies(before, rows) && i < |pages|
  {
    var all := Listing(before, rows);
    && StartOf(i, limit) <= |all|
    && pages[i] == Take(all[StartOf(i, limit)..], limit)
    && ((more || i + 1 < |pages|) <==> |all| > StartOf(i, limit) + limit)
  }

  /** Page i holds the rows from its start on, and has a successor exactly if rows remain after it. */
  lemma {:induction false} PageStartsAt<T(!new)>(before: (T, T) -> bool, rows: set<T>, tables: seq<set<T>>,
                                                 pages: seq<seq<T>>, limit: nat, more: bool, i: nat)
    requires Following(before, tables, pages, limit, more) && i < |pages| && NoTies(before, rows)
    requires forall k :: 0 <= k < |tables| ==> tables[k] == rows
    ensures PageIsRight(before, rows, pages, limit, more, i)
  {
    if i > 0 { PageStartsAt(before, rows, tables, pages, limit, more, i - 1); }
    assert FetchedAt(before, tables, pages, limit, more, i);
    NextPageIsRight(before, rows, pages, limit, more, i);
  }

  lemma NextPageIsRight<T(!new)>(before: (T, T) -> bool, rows: set<T>, pages: seq<seq<T>>, limit: nat, more: bool,
                                 i: nat)
    requires WeakOrder(before) && NoTies(before, rows) && limit >= 1 && i < |pages|
    requires IsPage(Fetch(before, After(before, rows, CursorOf(pages, i)), limit), pages[i], more || i + 1 < |pages|)
    requires i > 0 ==> PageIsRight(before, rows, pages, limit, more, i - 1)
    ensures PageIsRight(before, rows, pages, limit, more, i)
  {
    CursorIsRowBefore(Listing(before, rows), pages, limit, i);
    PageFrom(before, rows, limit, StartOf(i, limit), CursorOf(pages, i));
  }

  lemma CursorIsRowBefore<T>(all: seq<T>, pages: seq<seq<T>>, limit: nat, i: nat)
    requires i < |pages| && limit >= 1
    requires i > 0 ==> StartOf(i, limit) < |all| && pages[i - 1] == Take(all[StartOf(i - 1, limit)..], limit)
    ensures CursorOf(pages, i) == if StartOf(i, limit) == 0 then None else Some(all[StartOf(i, limit) - 1])
    ensures StartOf(i, limit) <= |all|
  {
  }

  lemma LastPageAndBefore<T(!new)>(before: (T, T) -> bool, rows: set<T>, tables: seq<set<T>>, pages: seq<seq<T>>,
                                   limit: nat, more: bool)
    requires Following(before, tables, pages, limit, more) && NoTies(before, rows)
    requires forall i :: 0 <= i < |tables| ==> tables[i] == rows
    ensures more <==> |Listing(before, rows)| > StartOf(|pages| - 1, limit) + limit
    ensures |pages| > 1 ==> |Listing(before, rows)| > StartOf(|pages| - 2, limit) + limit
  {
    PageStartsAt(before, rows, tables, pages, limit, more, |pages| - 1);
    if |pages| > 1 { PageStartsAt(before, rows, tables, pages, limit, more, |pages| - 2); }
  }

  /**
   * On an unchanging table a client that follows cursors is at the end after exactly as many pages as
   * the rows fill, and never earlier or later.
   */
  lemma FollowingEnds<T(!new)>(before: (T, T) -> bool, rows: set<T>, tables: seq<set<T>>, pages: seq<seq<T>>,
                               limit: nat, more: bool)
    requires Following(before, tables, pages, limit, more)
    requires forall i :: 0 <= i < |tables| ==> tables[i] == rows
    ensures if more then |pages| < PageCount(|rows|, limit) else |pages| == PageCount(|rows|, limit)
  {
    assert NoTies(before, rows) by { assert tables[0] == rows; }
    LastPageAndBefore(before, rows, tables, pages, limit, more);
    ListingLength(before, rows, Listing(before, rows));
    PagesFilled(|rows|, limit, |pages| - 1);
  }

  /** Rows remain after page i exactly if it is not the last that they fill. */
  lemma {:induction false} PagesFilled(n: nat, limit: nat, i: nat)
    requires limit >= 1
    ensures n > StartOf(i, limit) + limit <==> i + 1 < PageCount(n, limit)
    ensures i > 0 ==> (n > StartOf(i - 1, limit) + limit <==> i < PageCount(n, limit))
    decreases n
  {
    if n > limit && i > 0 {
      PagesFilled(n - limit, limit, i - 1);
    }
  }
}
