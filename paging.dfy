/** The pagination expressions the tables share:
      totalPages = Math.ceil(list.length / rowsPerPage)
      startIndex = (page - 1) * rowsPerPage
      shown      = list.slice(startIndex, startIndex + rowsPerPage) */
module Paging {
  import Js

  /** `Math.ceil(n / rows)`. */
  function TotalPages(n: nat, rows: nat): (r: nat)
    requires rows > 0
    ensures n == 0 ==> r == 0
    ensures n > 0 ==> (r - 1) * rows < n <= r * rows
  {
    (n + rows - 1) / rows
  }

  /** The rows shown on `page` (pages are numbered from 1). */
  function PageSlice<T>(s: seq<T>, page: int, rows: nat): (r: seq<T>)
    ensures |r| <= rows
  {
    var start := (page - 1) * rows;
    Js.SliceWindowBound(s, start, rows);
    Js.Slice(s, start, start + rows)
  }

  /** For a page number the buttons can produce (1 or more), the page is
      the window `[(page-1)*rows, (page-1)*rows + rows)` clipped to the
      list. */
  lemma PageWindow<T>(s: seq<T>, page: int, rows: nat)
    requires page >= 1
    ensures var start := (page - 1) * rows;
      PageSlice(s, page, rows) ==
        if start >= |s| then []
        else s[start..if start + rows <= |s| then start + rows else |s|]
  {
    var start := (page - 1) * rows;
    assert start >= 0 by { MulMonotone(0, page - 1, rows); }
    Js.SliceFromNonNegative(s, start, rows);
  }

  /** A page the buttons can select is empty exactly when it lies past the
      last page. */
  lemma EmptyPageIffPastEnd<T>(s: seq<T>, page: int, rows: nat)
    requires page >= 1 && rows > 0
    ensures PageSlice(s, page, rows) == [] <==> page > TotalPages(|s|, rows)
  {
    EmptyPageIffNoStart(s, page, rows);
    PastLastPage(|s|, page, rows);
  }

  /** A page is empty exactly when its first row lies at or past the end. */
  lemma EmptyPageIffNoStart<T>(s: seq<T>, page: int, rows: nat)
    requires page >= 1 && rows > 0
    ensures PageSlice(s, page, rows) == [] <==> (page - 1) * rows >= |s|
  {
    var start := (page - 1) * rows;
    assert start >= 0 by { MulMonotone(0, page - 1, rows); }
    Js.SliceWindowEmpty(s, start, rows);
  }

  /** Page `page` starts at or past row `n` exactly when it is after the
      last of `TotalPages(n, rows)` pages. */
  lemma PastLastPage(n: nat, page: int, rows: nat)
    requires page >= 1 && rows > 0
    ensures (page - 1) * rows >= n <==> page > TotalPages(n, rows)
  {
    var t := TotalPages(n, rows);
    if page > t {
      MulMonotone(t, page - 1, rows);
      assert n <= t * rows;
    } else {
      assert t >= 1 && n > 0;
      MulMonotone(page - 1, t - 1, rows);
      assert (page - 1) * rows <= (t - 1) * rows < n;
    }
  }

  /** Every row of the list is shown on exactly the page its index falls
      in: row `k` is entry `k % rows` of page `k / rows + 1`. */
  lemma EveryRowOnItsPage<T>(s: seq<T>, k: nat, rows: nat)
    requires k < |s| && rows > 0
    ensures var p := PageSlice(s, k / rows + 1, rows);
      k % rows < |p| && p[k % rows] == s[k]
  {
    var page := k / rows + 1;
    var start := (page - 1) * rows;
    assert start + k % rows == k && k % rows < rows by {
      DivModSplit(k, rows);
    }
    PageWindow(s, page, rows);
  }

  /** Euclid's division of `k` by `rows`. */
  lemma DivModSplit(k: nat, rows: nat)
    requires rows > 0
    ensures (k / rows + 1 - 1) * rows + k % rows == k && k % rows < rows
  {
    assert k / rows + 1 - 1 == k / rows;
  }

  /** A cell that lists at most `k` entries: `s.slice(0, k)` and the flag
      `s.length > k` that adds an ellipsis. */
  function Preview<T>(s: seq<T>, k: nat): (r: (seq<T>, bool))
    ensures r.0 <= s && |r.0| <= k
    ensures r.1 <==> |s| > k
    ensures !r.1 ==> r.0 == s
    ensures r.1 ==> |r.0| == k
  {
    (Js.Slice(s, 0, k), |s| > k)
  }

  lemma MulMonotone(a: int, b: int, c: nat)
    requires a <= b
    ensures a * c <= b * c
  {
  }
}
