/**
 * Rows in index order: what a WHERE clause keeps, what a cursor leaves, and a page of it.
 */
module OrderedRows {
  import opened Prelude

  function Filter<T>(s: seq<T>, keep: T -> bool): seq<T> {
    if s == [] then [] else (if keep(s[0]) then [s[0]] else []) + Filter(s[1..], keep)
  }

  lemma {:induction false} FilterMembers<T>(s: seq<T>, keep: T -> bool, x: T)
    ensures x in Filter(s, keep) <==> x in s && keep(x)
  {
    if s != [] { FilterMembers(s[1..], keep, x); }
  }

  lemma {:induction false} FilterConcat<T>(s: seq<T>, t: seq<T>, keep: T -> bool)
    ensures Filter(s + t, keep) == Filter(s, keep) + Filter(t, keep)
  {
    if s == [] {
      assert s + t == t;
    } else {
      var head := if keep(s[0]) then [s[0]] else [];
      FilterConcat(s[1..], t, keep);
      assert (s + t)[0] == s[0] && (s + t)[1..] == s[1..] + t;
      assert Filter(s + t, keep) == head + Filter(s[1..] + t, keep);
      assert Filter(s, keep) == head + Filter(s[1..], keep);
    }
  }

  lemma {:induction false} FilterTwice<T>(s: seq<T>, p: T -> bool, q: T -> bool, both: T -> bool)
    requires forall x :: x in s ==> (both(x) <==> p(x) && q(x))
    ensures Filter(s, both) == Filter(Filter(s, p), q)
  {
    if s != [] {
      assert s[0] in s;
      FilterTwice(s[1..], p, q, both);
      assert [s[0]][1..] == [];
      FilterConcat([s[0]], Filter(s[1..], p), q);
      assert Filter(s, p) == if p(s[0]) then [s[0]] + Filter(s[1..], p) else Filter(s[1..], p);
    }
  }

  lemma {:induction false} FilterAll<T>(s: seq<T>, keep: T -> bool)
    requires forall k :: 0 <= k < |s| ==> keep(s[k])
    ensures Filter(s, keep) == s
  {
    if s != [] { FilterAll(s[1..], keep); }
  }

  /** The rows past a cursor are the rows after the cursor's row. */
  lemma {:induction false} PastCursor<T>(s: seq<T>, i: nat, past: T -> bool)
    requires i <= |s|
    requires forall k :: 0 <= k < |s| ==> (past(s[k]) <==> k >= i)
    ensures Filter(s, past) == s[i..]
  {
    if i == 0 {
      FilterAll(s, past);
    } else {
      PastCursor(s[1..], i - 1, past);
      assert s[1..][i - 1..] == s[i..];
    }
  }

  lemma {:induction false} FilterKeepsOrder<T>(s: seq<T>, keep: T -> bool, less: (T, T) -> bool)
    requires forall i, j :: 0 <= i < j < |s| ==> less(s[i], s[j])
    ensures forall i, j :: 0 <= i < j < |Filter(s, keep)| ==> less(Filter(s, keep)[i], Filter(s, keep)[j])
  {
    if s != [] {
      FilterKeepsOrder(s[1..], keep, less);
      var rest := Filter(s[1..], keep);
      forall x | x in rest ensures less(s[0], x) {
        FilterMembers(s[1..], keep, x);
        var k :| 0 <= k < |s[1..]| && s[1..][k] == x;
        assert less(s[0], s[k + 1]);
      }
    }
  }

  function Take<T>(s: seq<T>, n: nat): seq<T> {
    if |s| <= n then s else s[..n]
  }

  /** A page of limit + 1 fetched rows, cut to the limit; `next` is the last row when there is more. */
  datatype Page<T> = Page(rows: seq<T>, next: Option<T>, hasNext: bool)

  function Cut<T>(records: seq<T>, limit: nat): Page<T> {
    var page := Take(records, limit);
    var hasNext := |records| > limit;
    Page(page, if hasNext && page != [] then Some(page[|page| - 1]) else None, hasNext)
  }

  /** Fetching one row beyond the limit is enough to know whether there is more. */
  lemma CutOfFetched<T>(records: seq<T>, limit: nat)
    ensures Cut(Take(records, limit + 1), limit) == Cut(records, limit)
  {
  }

  /** The page holds the rows from `i` on, and carries a cursor, its last row, exactly when rows remain. */
  ghost predicate Covers<T>(all: seq<T>, i: nat, page: Page<T>) {
    var j := i + |page.rows|;
    && j <= |all| && page.rows == all[i..j]
    && (page.hasNext <==> j < |all|)
    && (page.hasNext ==> j > i && page.next == Some(all[j - 1]))
  }

  lemma CutCovers<T>(all: seq<T>, i: nat, limit: nat)
    requires i <= |all| && limit >= 1
    ensures Covers(all, i, Cut(all[i..], limit))
    ensures Covers(all, i, Cut(Take(all[i..], limit + 1), limit))
  {
    CutOfFetched(all[i..], limit);
  }

  /** A page put behind the rows before it. */
  lemma CoveredExtends<T>(all: seq<T>, i: nat, page: Page<T>, before: seq<T>)
    requires Covers(all, i, page) && before == all[..i]
    ensures i + |page.rows| <= |all| && before + page.rows == all[..i + |page.rows|]
    ensures !page.hasNext ==> before + page.rows == all
    ensures page.hasNext ==> page.rows != [] && page.next == Some(all[i + |page.rows| - 1])
  {
  }

  lemma CoveredFilter<T>(all: seq<T>, i: nat, page: Page<T>, keep: T -> bool)
    requires Covers(all, i, page)
    ensures var j := i + |page.rows|;
            && Filter(all[..j], keep) == Filter(all[..i], keep) + Filter(page.rows, keep)
            && (!page.hasNext ==> Filter(all[..j], keep) == Filter(all, keep))
  {
    CoveredExtends(all, i, page, all[..i]);
    FilterConcat(all[..i], page.rows, keep);
  }

  lemma CoveredPrefix<T>(all: seq<T>, i: nat, page: Page<T>)
    requires Covers(all, i, page)
    ensures all[..i + |page.rows|] == all[..i] + page.rows
    ensures !page.hasNext ==> all[..i + |page.rows|] == all
  {
  }
}
