/**
 * `ORDER BY created_at DESC` of the saved-recipes query. SQL leaves the order
 * of rows with equal timestamps open; this model settles it by insertion
 * sort, which puts such rows in reverse table order. No contract relies on
 * that choice: every property proved here is
 * about the order the query promises: newest first, and a permutation of the
 * selected rows.
 */
module SavedOrder {
  import opened Store

  /** Newest first: `created_at` never increases along the list. */
  predicate NewestFirst(s: seq<SavedListing>) {
    forall i, j :: 0 <= i < j < |s| ==> s[i].createdAt >= s[j].createdAt
  }

  /** A head at least as new as every entry of a newest-first tail keeps the order. */
  lemma PrependNewest(h: SavedListing, t: seq<SavedListing>)
    requires NewestFirst(t)
    requires forall k :: 0 <= k < |t| ==> h.createdAt >= t[k].createdAt
    ensures NewestFirst([h] + t)
  {
    var r := [h] + t;
    forall i, j | 0 <= i < j < |r| ensures r[i].createdAt >= r[j].createdAt {
      assert r[j] == t[j - 1];
      if i > 0 {
        assert r[i] == t[i - 1];
      }
    }
  }

  /** Puts `x` into a newest-first list after every entry at least as new as it. */
  function InsertNewestFirst(x: SavedListing, s: seq<SavedListing>): (r: seq<SavedListing>)
    requires NewestFirst(s)
    ensures NewestFirst(r)
    ensures forall e :: e in r <==> e == x || e in s
    ensures multiset(r) == multiset(s) + multiset{x}
  {
    if s == [] then [x]
    else if s[0].createdAt < x.createdAt then
      PrependNewest(x, s);
      [x] + s
    else
      var rest := InsertNewestFirst(x, s[1..]);
      assert s == [s[0]] + s[1..];
      forall k | 0 <= k < |rest| ensures s[0].createdAt >= rest[k].createdAt {
        assert rest[k] in rest;
        if rest[k] != x {
          var m :| 0 <= m < |s[1..]| && s[1..][m] == rest[k];
          assert s[m + 1] == rest[k];
        }
      }
      PrependNewest(s[0], rest);
      [s[0]] + rest
  }

  /** The saved-recipe rows in `ORDER BY created_at DESC` order. */
  function SortNewestFirst(s: seq<SavedListing>): (r: seq<SavedListing>)
    ensures NewestFirst(r)
    ensures multiset(r) == multiset(s)
  {
    if s == [] then []
    else
      assert s == [s[0]] + s[1..];
      InsertNewestFirst(s[0], SortNewestFirst(s[1..]))
  }
}
