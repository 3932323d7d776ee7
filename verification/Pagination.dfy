/**
 The clamped pagination of the list endpoints: straight-line 64-bit arithmetic around one
 LIMIT/OFFSET query on an ordered result.
 */
module Pagination {
  const TWO64: int := 0x1_0000_0000_0000_0000
  type U64 = n: int | 0 <= n < 0x1_0000_0000_0000_0000

  /** The database counts rows in a signed 64-bit integer. */
  type RowCount = n: int | 0 <= n < 0x8000_0000_0000_0000

  /** `(total_items + limit - 1) / limit`, in wrapping arithmetic. */
  function TotalPages(total: RowCount, limit: U64): int
    requires limit > 0
  {
    var sum := total + limit - 1;
    (if sum < TWO64 then sum else sum - TWO64) / limit
  }

  function PageIndex(total: RowCount, limit: U64, page: U64): int
    requires limit > 0
  {
    var p := if page == 0 then 1 else page;
    var pages := TotalPages(total, limit);
    var last := if pages <= 0 then 0 else pages - 1;
    if p - 1 < last then p - 1 else last
  }

  function Min(a: int, b: int): int {
    if a < b then a else b
  }

  /** LIMIT `limit` OFFSET `index * limit`. */
  function Fetch<T>(rows: seq<T>, limit: U64, index: int): seq<T> {
    Slice(rows, index * limit, limit)
  }

  function Slice<T>(rows: seq<T>, offset: int, limit: U64): seq<T> {
    if 0 <= offset <= |rows| then rows[offset..Min(offset + limit, |rows|)] else []
  }

  /** `paginate_query`: the page and the number of rows. */
  function Page<T>(rows: seq<T>, limit: U64, page: U64): (seq<T>, nat)
    requires |rows| < 0x8000_0000_0000_0000
  {
    if limit == 0 then ([], 0)
    else (Fetch(rows, limit, PageIndex(|rows|, limit, page)), |rows|)
  }

  /** The number of pages, without a machine word. */
  function Ceil(total: nat, limit: nat): (n: nat)
    requires limit > 0
    ensures (n - 1) * limit < total || n == 0
    ensures total <= n * limit
    ensures n == 0 <==> total == 0
  {
    if total <= limit then (if total == 0 then 0 else 1) else 1 + Ceil(total - limit, limit)
  }

  lemma DivUnique(a: nat, b: nat, q: nat)
    requires b > 0 && q * b <= a < q * b + b
    ensures a / b == q
  {
    var d := a / b;
    assert a == d * b + a % b;
    assert d < q ==> (d + 1) * b <= q * b;
    assert d > q ==> (q + 1) * b <= d * b;
  }

  /** Where the 64-bit sum wraps there is a single page, and the clamp still picks it. */
  lemma ClampIsRight(total: RowCount, limit: U64, page: U64)
    requires limit > 0
    ensures var pages := Ceil(total, limit);
            PageIndex(total, limit, page) == if pages == 0 || page <= 1 then 0 else Min(page, pages) - 1
  {
    var pages := Ceil(total, limit);
    var sum := total + limit - 1;
    if sum < TWO64 {
      DivUnique(sum, limit, pages);
    } else {
      DivUnique(sum - TWO64, limit, 0);
    }
  }

  /** The page a request gets, as a slice of the ordered list. */
  lemma PageIsSlice<T>(rows: seq<T>, limit: U64, page: U64)
    requires |rows| < 0x8000_0000_0000_0000 && limit > 0
    ensures var pages := Ceil(|rows|, limit);
            var i := if pages == 0 || page <= 1 then 0 else Min(page, pages) - 1;
            && 0 <= i * limit <= |rows| && (rows != [] ==> i * limit < |rows|)
            && Page(rows, limit, page) == (Slice(rows, i * limit, limit), |rows|)
  {
    ClampIsRight(|rows|, limit, page);
    var pages := Ceil(|rows|, limit);
    var i := if pages == 0 || page <= 1 then 0 else Min(page, pages) - 1;
    if pages > 0 {
      assert i * limit <= (pages - 1) * limit;
    }
  }

  /** Pages 1 to `n`, one after another. */
  function FirstPages<T>(rows: seq<T>, limit: U64, n: nat): seq<T>
    requires |rows| < 0x8000_0000_0000_0000 && n < TWO64
  {
    if n == 0 then [] else FirstPages(rows, limit, n - 1) + Page(rows, limit, n).0
  }

  lemma SliceAppend<T>(rows: seq<T>, from: nat, limit: U64)
    requires from <= |rows|
    ensures rows[..from] + Slice(rows, from, limit) == rows[..Min(from + limit, |rows|)]
  {
  }

  /** Before the last page is complete, the pages so far are a prefix of the list. */
  lemma {:induction false} FirstPagesPrefix<T>(rows: seq<T>, limit: U64, n: nat, end: nat)
    requires |rows| < 0x8000_0000_0000_0000 && limit > 0 && n <= Ceil(|rows|, limit) < TWO64
    requires end == n * limit
    ensures FirstPages(rows, limit, n) == rows[..Min(end, |rows|)]
  {
    if n > 0 {
      var from := end - limit;
      assert from == (n - 1) * limit;
      PageIsSlice(rows, limit, n);
      FirstPagesPrefix(rows, limit, n - 1, from);
      SliceAppend(rows, from, limit);
    }
  }

  lemma CeilBound(total: RowCount, limit: U64)
    requires limit > 0
    ensures Ceil(total, limit) <= total
  {
    var n := Ceil(total, limit);
    assert n > 0 ==> (n - 1) * limit >= n - 1;
  }

  /** For every result and every positive limit the pages concatenate to exactly the ordered list. */
  lemma PagesPartition<T>(rows: seq<T>, limit: U64)
    requires |rows| < 0x8000_0000_0000_0000 && limit > 0
    ensures Ceil(|rows|, limit) < TWO64
    ensures FirstPages(rows, limit, Ceil(|rows|, limit)) == rows
  {
    CeilBound(|rows|, limit);
    var n := Ceil(|rows|, limit);
    FirstPagesPrefix(rows, limit, n, n * limit);
  }

  /** Page 0 is page 1, pages past the end are the last page, and no page of a non-empty result is empty. */
  lemma PagesClamped<T>(rows: seq<T>, limit: U64, page: U64)
    requires |rows| < 0x8000_0000_0000_0000 && limit > 0
    ensures Page(rows, 0, page) == ([], 0)
    ensures Page(rows, limit, 0) == Page(rows, limit, 1)
    ensures Page(rows, limit, page).1 == |rows| && |Page(rows, limit, page).0| <= limit
    ensures Ceil(|rows|, limit) < TWO64
    ensures page >= Ceil(|rows|, limit) ==> Page(rows, limit, page) == Page(rows, limit, Ceil(|rows|, limit))
    ensures rows != [] ==> Page(rows, limit, page).0 != []
  {
    CeilBound(|rows|, limit);
    PageIsSlice(rows, limit, 0);
    PageIsSlice(rows, limit, 1);
    PageIsSlice(rows, limit, page);
    PageIsSlice(rows, limit, Ceil(|rows|, limit));
  }
}
