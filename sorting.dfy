/** The ordering Prisma applies for `orderBy` on one column: rows ranked by
    an integer key, smallest first (a descending column is ranked by its
    negation). The order among rows with equal keys is not specified by the
    database and is not relied on. */
module Sorting {

  predicate Ranked<T>(rows: seq<T>, rank: T -> int) {
    forall i, j :: 0 <= i < j < |rows| ==> rank(rows[i]) <= rank(rows[j])
  }

  /** Places `x` into ranked rows. */
  function Insert<T>(x: T, rows: seq<T>, rank: T -> int): (r: seq<T>)
    requires Ranked(rows, rank)
    ensures multiset(r) == multiset(rows) + multiset{x}
    ensures Ranked(r, rank)
  {
    if rows == [] || rank(x) <= rank(rows[0]) then
      FirstIsLeast(rows, rank);
      ConsRanked(x, rows, rank);
      [x] + rows
    else
      TailRanked(rows, rank);
      var rest := Insert(x, rows[1..], rank);
      FirstIsLeast(rows, rank);
      assert forall y :: y in rest ==> y == x || y in rows[1..] by {
        forall y | y in rest ensures y == x || y in rows[1..] {
          assert y in multiset(rest);
        }
      }
      ConsRanked(rows[0], rest, rank);
      assert multiset(rows) == multiset{rows[0]} + multiset(rows[1..]) by {
        assert rows == [rows[0]] + rows[1..];
      }
      [rows[0]] + rest
  }

  lemma TailRanked<T>(rows: seq<T>, rank: T -> int)
    requires Ranked(rows, rank) && |rows| > 0
    ensures Ranked(rows[1..], rank)
  {
    forall i, j | 0 <= i < j < |rows| - 1 ensures rank(rows[1..][i]) <= rank(rows[1..][j]) {
      assert rows[1..][i] == rows[i + 1] && rows[1..][j] == rows[j + 1];
    }
  }

  lemma FirstIsLeast<T>(rows: seq<T>, rank: T -> int)
    requires Ranked(rows, rank)
    ensures |rows| > 0 ==> forall y :: y in rows ==> rank(rows[0]) <= rank(y)
  {
    forall y | y in rows ensures rank(rows[0]) <= rank(y) {
      var m :| 0 <= m < |rows| && rows[m] == y;
      if m > 0 {
        assert rank(rows[0]) <= rank(rows[m]);
      }
    }
  }

  lemma ConsRanked<T>(h: T, rest: seq<T>, rank: T -> int)
    requires Ranked(rest, rank)
    requires forall y :: y in rest ==> rank(h) <= rank(y)
    ensures Ranked([h] + rest, rank)
  {
    var r := [h] + rest;
    forall i, j | 0 <= i < j < |r| ensures rank(r[i]) <= rank(r[j]) {
      if i == 0 {
        assert r[j] == rest[j - 1] && rest[j - 1] in rest;
      } else {
        assert r[i] == rest[i - 1] && r[j] == rest[j - 1];
      }
    }
  }

  /** The rows in rank order: the same rows, ranked. */
  function SortByRank<T>(rows: seq<T>, rank: T -> int): (r: seq<T>)
    ensures multiset(r) == multiset(rows)
    ensures Ranked(r, rank)
  {
    if rows == [] then []
    else
      assert rows == [rows[0]] + rows[1..];
      Insert(rows[0], SortByRank(rows[1..], rank), rank)
  }
}
