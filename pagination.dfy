/** The page arithmetic that JobsList (src/components/employer/JobsList.tsx) and
    ApplicationsList (src/components/seeker/ApplicationsList.tsx) both spell out: ten rows
    per page, `items.slice(first, last)`, `Math.ceil(n / 10)` pages and clamped
    previous/next buttons. */
module Pagination {

  /** `itemsPerPage`. */
  const ItemsPerPage: nat := 10

  function Min(a: int, b: int): int {
    if a <= b then a else b
  }

  function Max(a: int, b: int): int {
    if a >= b then a else b
  }

  /** An index argument of `Array.prototype.slice`: a negative one counts from the end,
      and the result is clamped to `[0, n]`. */
  function SliceIndex(i: int, n: nat): (k: nat)
    ensures k <= n
    ensures 0 <= i <= n ==> k == i
    ensures i > n ==> k == n
    ensures i < 0 ==> k == Max(n + i, 0)
  {
    if i < 0 then (if n + i < 0 then 0 else n + i)
    else if i > n then n
    else i
  }

  /** `s.slice(start, end)`. */
  function JsSlice<T>(s: seq<T>, start: int, end: int): (r: seq<T>)
    ensures 0 <= start <= end ==> r == s[Min(start, |s|)..Min(end, |s|)]
    ensures |r| <= |s|
  {
    var lo, hi := SliceIndex(start, |s|), SliceIndex(end, |s|);
    if lo < hi then s[lo..hi] else []
  }

  /** The rows of page `page`: `indexOfLastItem = page * 10`,
      `indexOfFirstItem = indexOfLastItem - 10`, then the slice between them. */
  function PageItems<T>(items: seq<T>, page: int): (r: seq<T>)
    ensures |r| <= ItemsPerPage
    ensures page >= 1 ==> r == items[Min((page - 1) * ItemsPerPage, |items|)..Min(page * ItemsPerPage, |items|)]
  {
    var indexOfLastItem := page * ItemsPerPage;
    var indexOfFirstItem := indexOfLastItem - ItemsPerPage;
    JsSlice(items, indexOfFirstItem, indexOfLastItem)
  }

  /** `Math.ceil(n / itemsPerPage)`: the fewest pages of ten that hold `n` rows. */
  function TotalPages(n: nat): (t: nat)
    ensures t * ItemsPerPage >= n
    ensures t > 0 ==> (t - 1) * ItemsPerPage < n
    ensures t == 0 <==> n == 0
  {
    var q := (n + ItemsPerPage - 1) / ItemsPerPage;
    assert n + ItemsPerPage - 1 == q * ItemsPerPage + (n + ItemsPerPage - 1) % ItemsPerPage;
    q
  }

  /** A page in `[1, totalPages]` shows between one and ten rows, namely rows
      `(page - 1) * 10` onward; a page past the last one shows none. */
  lemma PageInRange<T>(items: seq<T>, page: int)
    requires page >= 1
    ensures PageItems(items, page) != [] <==> page <= TotalPages(|items|)
    ensures page <= TotalPages(|items|) ==>
      forall k :: 0 <= k < |PageItems(items, page)| ==>
        PageItems(items, page)[k] == items[(page - 1) * ItemsPerPage + k]
    ensures page < TotalPages(|items|) ==> |PageItems(items, page)| == ItemsPerPage
  {
  }

  /** The rows of pages `page`, `page + 1`, ..., `totalPages`, one after the other: every
      remaining row exactly once, in order. */
  function PagesFrom<T>(items: seq<T>, page: nat): (r: seq<T>)
    requires page >= 1
    ensures r == items[Min((page - 1) * ItemsPerPage, |items|)..]
    decreases TotalPages(|items|) + 1 - page
  {
    if page > TotalPages(|items|) then []
    else
      assert items[Min((page - 1) * ItemsPerPage, |items|)..] ==
        items[Min((page - 1) * ItemsPerPage, |items|)..Min(page * ItemsPerPage, |items|)]
        + items[Min(page * ItemsPerPage, |items|)..];
      PageItems(items, page) + PagesFrom(items, page + 1)
  }

  /** The pages partition the list: pages 1 to `totalPages` concatenated are the list. */
  lemma PagesCoverList<T>(items: seq<T>)
    ensures PagesFrom(items, 1) == items
  {
  }

  /** The Previous button: `Math.max(prev - 1, 1)`. */
  function PreviousPage(page: int): (r: int)
    ensures r >= 1
    ensures page > 1 ==> r == page - 1
    ensures page <= 1 ==> r == 1
  {
    Max(page - 1, 1)
  }

  /** The Next button: `Math.min(prev + 1, totalPages)`. */
  function NextPage(page: int, totalPages: nat): (r: int)
    ensures r <= totalPages
    ensures page < totalPages ==> r == page + 1
    ensures page >= totalPages ==> r == totalPages
  {
    Min(page + 1, totalPages)
  }

  /** The numbered links: link `index` sets the page to `index + 1`. */
  function PageLinks(totalPages: nat): (r: seq<int>)
    ensures |r| == totalPages
    ensures forall i :: 0 <= i < |r| ==> r[i] == i + 1
  {
    seq(totalPages, i => i + 1)
  }

  /** The pagination bar, `showPagination && totalPages > 1`: it appears iff it is asked for
      and there are more than ten rows. */
  function ShowPagination(showPagination: bool, n: nat): (b: bool)
    ensures b <==> showPagination && n > ItemsPerPage
  {
    showPagination && TotalPages(n) > 1
  }

  /** Starting from page 1, any sequence of Previous, Next and link clicks keeps the page in
      `[1, totalPages]` whenever there is at least one page. */
  lemma ClicksStayInRange(page: int, totalPages: nat, index: int)
    requires 1 <= page <= totalPages
    ensures 1 <= PreviousPage(page) <= totalPages
    ensures 1 <= NextPage(page, totalPages) <= totalPages
    ensures 0 <= index < totalPages ==> 1 <= PageLinks(totalPages)[index] <= totalPages
  {
  }

  /** What a paginated list renders: only the empty-state message for no rows, otherwise
      the current page's rows and, when `bar` holds, the pagination bar. */
  datatype Listing<T> = EmptyMessage | Table(rows: seq<T>, bar: bool)

  function Render<T>(items: seq<T>, currentPage: int, showPagination: bool): (r: Listing<T>)
    ensures r.EmptyMessage? <==> items == []
    ensures r.Table? ==>
      r.rows == PageItems(items, currentPage) && (r.bar <==> showPagination && |items| > ItemsPerPage)
  {
    if items == [] then EmptyMessage
    else Table(PageItems(items, currentPage), ShowPagination(showPagination, |items|))
  }

  // ---- The dashboards' overview lists ----

  /** How many rows a dashboard overview shows. */
  const RecentCount: nat := 5

  /** `items.slice(0, 5)`: the first five rows, or all of them when there are fewer. */
  function Recent<T>(items: seq<T>): (r: seq<T>)
    ensures |r| == Min(RecentCount, |items|)
    ensures r == items[..|r|]
  {
    JsSlice(items, 0, RecentCount)
  }

  /** The "View All" button, `items.length > 5`: it appears exactly when the overview leaves
      rows out, and without it the overview is the whole list. */
  function ShowViewAll<T>(items: seq<T>): (b: bool)
    ensures b <==> |Recent(items)| < |items|
    ensures !b ==> Recent(items) == items
  {
    |items| > RecentCount
  }
}
