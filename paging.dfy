/** The offset paging shared by the order lists and the product search:
    `skip = (page - 1) * limit`, `take = limit`, `totalPages = Math.ceil(total / limit)`. */
module Paging {

  function Skip(page: int, limit: int): (s: int)
    requires page >= 1 && limit >= 1
    ensures s >= 0
  {
    MulMonotone(0, page - 1, limit);
    (page - 1) * limit
  }

  /** `Math.ceil(total / limit)`: the fewest pages of `limit` rows that hold `total` rows. */
  function TotalPages(total: nat, limit: int): (n: nat)
    requires limit >= 1
    ensures n * limit >= total
    ensures n == 0 || (n - 1) * limit < total
  {
    var n := (total + limit - 1) / limit;
    CeilBounds(total, limit);
    n
  }

  lemma CeilBounds(total: nat, limit: int)
    requires limit >= 1
    ensures (total + limit - 1) / limit >= 0
    ensures ((total + limit - 1) / limit) * limit >= total
    ensures (total + limit - 1) / limit == 0 || ((total + limit - 1) / limit - 1) * limit < total
  {
    var q := (total + limit - 1) / limit;
    var r := (total + limit - 1) % limit;
    assert total + limit - 1 == q * limit + r;
    assert (q - 1) * limit == q * limit - limit;
  }

  /** One page of a query result: `limit` rows starting at `Skip(page, limit)`. */
  function Page<T>(rows: seq<T>, page: int, limit: int): (r: seq<T>)
    requires page >= 1 && limit >= 1
    ensures |r| <= limit
    ensures Skip(page, limit) + |r| <= |rows| || r == []
    ensures forall i :: 0 <= i < |r| ==> r[i] == rows[Skip(page, limit) + i]
    ensures |r| == if Skip(page, limit) >= |rows| then 0
                   else if |rows| - Skip(page, limit) < limit then |rows| - Skip(page, limit)
                   else limit
  {
    var s := Skip(page, limit);
    if s >= |rows| then [] else if |rows| - s < limit then rows[s..] else rows[s..s + limit]
  }

  /** A page holds rows exactly when its number is within `totalPages`. */
  lemma PageNonEmptyIff<T>(rows: seq<T>, page: int, limit: int)
    requires page >= 1 && limit >= 1
    ensures Page(rows, page, limit) != [] <==> page <= TotalPages(|rows|, limit)
  {
    var n := TotalPages(|rows|, limit);
    if page <= n {
      assert (page - 1) * limit <= (n - 1) * limit by {
        MulMonotone(page - 1, n - 1, limit);
      }
    } else {
      assert n * limit <= (page - 1) * limit by {
        MulMonotone(n, page - 1, limit);
      }
    }
  }

  lemma MulMonotone(a: int, b: int, c: int)
    requires a <= b && c >= 0
    ensures a * c <= b * c
  {
    assert b * c - a * c == (b - a) * c;
  }

  /** Every row is on exactly one page: row `k` is entry `k % limit` of page `k / limit + 1`. */
  lemma RowOnItsPage<T>(rows: seq<T>, k: nat, limit: int)
    requires k < |rows| && limit >= 1
    ensures var p := Page(rows, k / limit + 1, limit);
      k % limit < |p| && p[k % limit] == rows[k]
  {
    assert Skip(k / limit + 1, limit) == (k / limit) * limit;
    assert (k / limit) * limit + k % limit == k;
  }
}
