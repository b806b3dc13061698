/**
 * The pagination bar: the "Showing a–b of n" range, the sliding window of at most
 * five page buttons, the previous/next buttons and the page-size menu.  Nothing
 * here clamps the current page to the number of pages.
 */
module ProjectsPagination {

  const MaxVisible := 5

  const PageSizeOptions: seq<int> := [6, 12, 24, 48]

  /** `Math.ceil(totalCount / pageSize)`, the number of pages. */
  function TotalPages(totalCount: nat, pageSize: int): (r: nat)
    requires pageSize > 0
    ensures r * pageSize >= totalCount
    ensures (r - 1) * pageSize < totalCount
    ensures r == 0 <==> totalCount == 0
  {
    var q := (totalCount + pageSize - 1) / pageSize;
    assert q * pageSize <= totalCount + pageSize - 1 < q * pageSize + pageSize;
    q
  }

  /** The bar renders nothing when there are no items at all. */
  predicate Renders(totalCount: int) {
    totalCount != 0
  }

  /** The bar is drawn exactly when there is at least one page. */
  lemma RendersExactlyWithPages(totalCount: nat, pageSize: int)
    requires pageSize > 0
    ensures Renders(totalCount) <==> TotalPages(totalCount, pageSize) >= 1
  {
  }

  /** First item number shown: `(currentPage - 1) * pageSize + 1`. */
  function StartItem(currentPage: int, pageSize: int): int {
    (currentPage - 1) * pageSize + 1
  }

  /** Last item number shown: `Math.min(currentPage * pageSize, totalCount)`. */
  function EndItem(currentPage: int, pageSize: int, totalCount: int): (r: int)
    ensures r <= currentPage * pageSize && r <= totalCount
    ensures r == currentPage * pageSize || r == totalCount
  {
    if currentPage * pageSize < totalCount then currentPage * pageSize else totalCount
  }

  /** On an existing page the shown range is a non-empty stretch of at most one page
      of items, within the total. */
  lemma ShownRangeOnExistingPage(currentPage: int, pageSize: int, totalCount: nat)
    requires pageSize > 0
    requires 1 <= currentPage <= TotalPages(totalCount, pageSize)
    ensures 1 <= StartItem(currentPage, pageSize)
    ensures StartItem(currentPage, pageSize) <= EndItem(currentPage, pageSize, totalCount) <= totalCount
    ensures EndItem(currentPage, pageSize, totalCount) - StartItem(currentPage, pageSize) + 1 <= pageSize
  {
    var tp := TotalPages(totalCount, pageSize);
    assert (currentPage - 1) * pageSize <= (tp - 1) * pageSize by {
      MultiplyMonotone(currentPage - 1, tp - 1, pageSize);
    }
    assert (currentPage - 1) * pageSize >= 0 by {
      MultiplyMonotone(0, currentPage - 1, pageSize);
    }
  }

  lemma MultiplyMonotone(a: int, b: int, c: int)
    requires a <= b && c >= 0
    ensures a * c <= b * c
  {
  }

  /** Given a page past the last one, the range arithmetic puts its start beyond
      its end (and beyond the total). */
  lemma PastLastPageShowsInvertedRange(currentPage: int, pageSize: int, totalCount: nat)
    requires pageSize > 0
    requires currentPage > TotalPages(totalCount, pageSize)
    ensures StartItem(currentPage, pageSize) > totalCount
    ensures StartItem(currentPage, pageSize) > EndItem(currentPage, pageSize, totalCount)
  {
    var tp := TotalPages(totalCount, pageSize);
    MultiplyMonotone(tp, currentPage - 1, pageSize);
  }

  /** The consecutive pages `lo, lo + 1, ..., hi` (empty when `lo > hi`). */
  function Run(lo: int, hi: int): (r: seq<int>)
    ensures |r| == if lo <= hi then hi - lo + 1 else 0
    ensures forall k :: 0 <= k < |r| ==> r[k] == lo + k
    decreases hi - lo
  {
    if lo > hi then [] else [lo] + Run(lo + 1, hi)
  }

  /** First and last page of the window: all pages when there are at most five,
      otherwise from two before the current page (but not below 1) to four after
      that start (but not past the last page). */
  function WindowStart(currentPage: int, totalPages: int): int {
    if totalPages <= MaxVisible then 1
    else if currentPage - 2 > 1 then currentPage - 2 else 1
  }

  function WindowEnd(currentPage: int, totalPages: int): int {
    if totalPages <= MaxVisible then totalPages
    else
      var start := WindowStart(currentPage, totalPages);
      if totalPages < start + MaxVisible - 1 then totalPages else start + MaxVisible - 1
  }

  /** The window holds at most five pages, all of them existing pages, and holds the
      current page whenever that page exists. */
  lemma WindowBounds(currentPage: int, totalPages: int)
    ensures var pages := Run(WindowStart(currentPage, totalPages), WindowEnd(currentPage, totalPages));
      && |pages| <= MaxVisible
      && (forall k :: 0 <= k < |pages| ==> 1 <= pages[k] <= totalPages)
      && (1 <= currentPage <= totalPages ==> currentPage in pages)
  {
    var lo, hi := WindowStart(currentPage, totalPages), WindowEnd(currentPage, totalPages);
    var pages := Run(lo, hi);
    if 1 <= currentPage <= totalPages {
      assert pages[currentPage - lo] == currentPage;
    }
  }

  /** `getVisiblePages()`: all pages when there are at most five, otherwise the
      window around the current page, each pushed by a loop. */
  method VisiblePages(currentPage: int, totalPages: int) returns (pages: seq<int>)
    ensures pages == Run(WindowStart(currentPage, totalPages), WindowEnd(currentPage, totalPages))
    ensures totalPages <= MaxVisible ==> pages == Run(1, totalPages)
    ensures |pages| <= MaxVisible
    ensures forall k :: 0 <= k < |pages| ==> 1 <= pages[k] <= totalPages
    ensures 1 <= currentPage <= totalPages ==> currentPage in pages
  {
    if totalPages <= MaxVisible {
      pages := PushRun(1, totalPages);
    } else {
      var start := if currentPage - 2 > 1 then currentPage - 2 else 1;
      var end := if totalPages < start + MaxVisible - 1 then totalPages else start + MaxVisible - 1;
      pages := PushRun(start, end);
    }
    WindowBounds(currentPage, totalPages);
  }

  /** One `for (let i = lo; i <= hi; i++) pages.push(i)` loop. */
  method PushRun(lo: int, hi: int) returns (pages: seq<int>)
    ensures pages == Run(lo, hi)
  {
    pages := [];
    var i := lo;
    while i <= hi
      invariant lo <= i <= (if lo <= hi then hi + 1 else lo)
      invariant pages == Run(lo, i - 1)
      decreases hi - i
    {
      RunExtend(lo, i - 1);
      pages := pages + [i];
      i := i + 1;
    }
  }

  /** Appending the next page to a run extends the run by one. */
  lemma {:induction false} RunExtend(lo: int, hi: int)
    requires lo <= hi + 1
    ensures Run(lo, hi) + [hi + 1] == Run(lo, hi + 1)
    decreases hi - lo
  {
    if lo <= hi {
      RunExtend(lo + 1, hi);
    }
  }

  /** The previous button: disabled on page 1 or below, and otherwise asks for the
      page before; nothing clamps the request. */
  predicate PreviousDisabled(currentPage: int) {
    currentPage <= 1
  }

  function PreviousTarget(currentPage: int): int {
    currentPage - 1
  }

  /** The next button: disabled on the last page or past it, otherwise asks for the
      page after. */
  predicate NextDisabled(currentPage: int, totalPages: int) {
    currentPage >= totalPages
  }

  function NextTarget(currentPage: int): int {
    currentPage + 1
  }

  /** An enabled previous or next button always asks for an existing page when the
      current page exists, and that page has its own button in the window. */
  lemma EnabledButtonsStayInRange(currentPage: int, totalPages: int)
    requires 1 <= currentPage <= totalPages
    ensures !PreviousDisabled(currentPage) ==> 1 <= PreviousTarget(currentPage) <= totalPages
    ensures !NextDisabled(currentPage, totalPages) ==> 1 <= NextTarget(currentPage) <= totalPages
    ensures !PreviousDisabled(currentPage) ==>
      PreviousTarget(currentPage) in Run(WindowStart(currentPage, totalPages), WindowEnd(currentPage, totalPages))
    ensures !NextDisabled(currentPage, totalPages) ==>
      NextTarget(currentPage) in Run(WindowStart(currentPage, totalPages), WindowEnd(currentPage, totalPages))
  {
    var lo, hi := WindowStart(currentPage, totalPages), WindowEnd(currentPage, totalPages);
    var pages := Run(lo, hi);
    if !PreviousDisabled(currentPage) {
      assert pages[currentPage - 1 - lo] == PreviousTarget(currentPage);
    }
    if !NextDisabled(currentPage, totalPages) {
      assert pages[currentPage + 1 - lo] == NextTarget(currentPage);
    }
  }
}
