/** The page arithmetic shared by the order and product listings:
    `skip: (page - 1) * limit`, `take: limit`, and
    `totalPages: Math.ceil(count / limit)`. */
module Paging {

  import opened Common

  /** How many rows come before page `page`. */
  function Skip(page: int, limit: int): int {
    (page - 1) * limit
  }

  /** `Math.ceil(count / limit)`. Dividing by zero gives `Infinity` or `NaN`,
      which are not integers: `None`. */
  function TotalPages(count: nat, limit: int): (r: Option<int>)
    ensures r.None? <==> limit == 0
    ensures r.Some? && limit > 0 ==> (r.value - 1) * limit < count <= r.value * limit
    ensures r.Some? && limit < 0 ==> r.value * limit <= count < (r.value - 1) * limit
  {
    if limit == 0 then None
    else if limit > 0 then Some((count + limit - 1) / limit)
    else Some(-(count / -limit))
  }

  /** `findMany({skip, take})` with a non-negative `take`: the rows from
      position `Skip(page, limit)` on, at most `limit` of them. Prisma refuses
      a negative `skip`, so page numbers below 1 throw. */
  function PageOf<T>(rows: seq<T>, page: int, limit: nat): (r: Result<seq<T>>)
    ensures r.Err? <==> Skip(page, limit) < 0
    ensures r.Err? ==> r.error == StoreRejected
    ensures r.Ok? ==> |r.value| <= limit
    ensures r.Ok? ==> forall k :: 0 <= k < |r.value| ==> Skip(page, limit) + k < |rows| && r.value[k] == rows[Skip(page, limit) + k]
    ensures r.Ok? && Skip(page, limit) + limit <= |rows| ==> |r.value| == limit
    ensures r.Ok? && Skip(page, limit) + limit > |rows| ==> Skip(page, limit) + |r.value| == |rows| || (Skip(page, limit) >= |rows| && r.value == [])
  {
    var skip := Skip(page, limit);
    if skip < 0 then Err(StoreRejected)
    else if skip >= |rows| then Ok([])
    else if skip + limit <= |rows| then Ok(rows[skip..skip + limit])
    else Ok(rows[skip..])
  }

  /** With a positive page size, the pages 1 to `TotalPages` show every row
      exactly where the page arithmetic puts it, and the page after the last
      is empty. */
  lemma {:induction false} PagesCoverRows<T>(rows: seq<T>, limit: nat, j: nat)
    requires limit > 0 && j < |rows|
    ensures var page := j / limit + 1;
      && TotalPages(|rows|, limit).Some?
      && 1 <= page <= TotalPages(|rows|, limit).value
      && PageOf(rows, page, limit).Ok?
      && j % limit < |PageOf(rows, page, limit).value|
      && PageOf(rows, page, limit).value[j % limit] == rows[j]
    ensures PageOf(rows, TotalPages(|rows|, limit).value + 1, limit) == Ok([])
  {
    var page := j / limit + 1;
    var n := TotalPages(|rows|, limit).value;
    assert Skip(page, limit) == j / limit * limit;
    assert j / limit * limit + j % limit == j;
    assert j / limit * limit <= j < |rows| <= n * limit;
    assert j / limit < n by {
      assert (j / limit) * limit < n * limit;
      ProductOrder(j / limit, n, limit);
    }
    assert Skip(n + 1, limit) == n * limit;
  }

  lemma ProductOrder(a: int, b: int, m: int)
    requires m > 0 && a * m < b * m
    ensures a < b
  {
    assert (b - a) * m == b * m - a * m;
  }
}
