/**
 * The arithmetic of the listing hook: a page number becomes an inclusive
 * range of row offsets, a row count becomes a number of pages, and the
 * Next/Previous handlers move the page number only inside the bounds.
 */
module Paging {

  /** Rows per listing page. */
  const PageSize: nat := 9

  /** The inclusive offsets `from..to` passed to the row query. */
  datatype RowRange = RowRange(from: int, to: int)

  /** `from = (page - 1) * pageSize`, `to = from + pageSize - 1`. */
  function RangeFor(page: int): (r: RowRange)
    ensures r.to - r.from + 1 == PageSize
    ensures page >= 1 ==> r.from >= 0
  {
    var from := (page - 1) * PageSize;
    RowRange(from, from + PageSize - 1)
  }

  /** The range of page `p + 1` starts right after the range of page `p` ends. */
  lemma ConsecutiveRangesAdjacent(page: int)
    ensures RangeFor(page + 1).from == RangeFor(page).to + 1
  {
  }

  /** Every row offset falls in the range of exactly one page: the ranges of pages 1, 2, ... tile the offsets. */
  lemma RowOnExactlyOnePage(i: nat, page: int)
    requires page >= 1
    ensures RangeFor(page).from <= i <= RangeFor(page).to <==> page == i / PageSize + 1
  {
    var q := i / PageSize;
    assert q * PageSize <= i < q * PageSize + PageSize;
    if page <= q {
      assert (page - 1) * PageSize + PageSize <= q * PageSize;
    } else if page > q + 1 {
      assert (page - 1) * PageSize >= (q + 1) * PageSize;
    }
  }

  /** `Math.ceil(count / pageSize)` for a non-negative row count. */
  function TotalPages(count: nat): (n: nat)
    ensures count == 0 <==> n == 0
    ensures count > 0 ==> (n - 1) * PageSize < count <= n * PageSize
  {
    (count + PageSize - 1) / PageSize
  }

  /** `TotalPages(count)` is the fewest pages that hold `count` rows. */
  lemma TotalPagesIsLeast(count: nat, m: nat)
    requires count <= m * PageSize
    ensures TotalPages(count) <= m
  {
  }

  /**
   * The rows a service holding `table` returns for the inclusive range `r`:
   * the offsets `from..to` that exist.
   */
  function ServedRows<T>(table: seq<T>, r: RowRange): (rows: seq<T>)
    requires 0 <= r.from <= r.to + 1
    ensures |rows| <= r.to - r.from + 1
  {
    if r.from >= |table| then []
    else table[r.from .. if r.to + 1 <= |table| then r.to + 1 else |table|]
  }

  /** Pages `1..k` of `table`, concatenated. */
  function PagesUpTo<T>(table: seq<T>, k: nat): seq<T>
  {
    if k == 0 then [] else PagesUpTo(table, k - 1) + ServedRows(table, RangeFor(k))
  }

  lemma {:induction false} PagesUpToIsPrefix<T>(table: seq<T>, k: nat)
    ensures PagesUpTo(table, k) == table[..if k * PageSize <= |table| then k * PageSize else |table|]
  {
    if k > 0 {
      PagesUpToIsPrefix(table, k - 1);
      var a := (k - 1) * PageSize;
      var b := a + PageSize;
      assert b == k * PageSize;
      assert RangeFor(k) == RowRange(a, b - 1);
      var ra := if a <= |table| then a else |table|;
      var rb := if b <= |table| then b else |table|;
      assert ServedRows(table, RangeFor(k)) == table[ra..rb];
      assert table[..ra] + table[ra..rb] == table[..rb];
    }
  }

  /**
   * Requesting pages `1..TotalPages(|table|)` in turn returns every row
   * of the table exactly once, in order.
   */
  lemma PagesCoverTable<T>(table: seq<T>)
    ensures PagesUpTo(table, TotalPages(|table|)) == table
  {
    PagesUpToIsPrefix(table, TotalPages(|table|));
  }

  /** A page returns rows exactly when its number is at most `TotalPages`. */
  lemma PageHasRowsIffInBounds<T>(table: seq<T>, page: int)
    requires page >= 1
    ensures ServedRows(table, RangeFor(page)) != [] <==> page <= TotalPages(|table|)
  {
    var n := TotalPages(|table|);
    if page <= n {
      assert (page - 1) * PageSize <= (n - 1) * PageSize;
    } else {
      assert (page - 1) * PageSize >= n * PageSize;
    }
  }

  /** The page after `nextPage`: one more when `page < totalPages`, otherwise unchanged. */
  function NextPageOf(page: int, totalPages: int): (r: int)
    ensures r == page || (r == page + 1 && page < totalPages)
    ensures page < totalPages ==> r == page + 1
    ensures 1 <= page <= totalPages ==> 1 <= r <= totalPages
  {
    if page < totalPages then page + 1 else page
  }

  /** The page after `prevPage`: one less when `page > 1`, otherwise unchanged. */
  function PrevPageOf(page: int): (r: int)
    ensures r == page || (r == page - 1 && page > 1)
    ensures page > 1 ==> r == page - 1
    ensures page >= 1 ==> 1 <= r <= page
  {
    if page > 1 then page - 1 else page
  }
}
