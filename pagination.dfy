/** `usePagination` (`src/hooks/usePagination.ts`): a current page over `totalItems` items shown
    `itemsPerPage` at a time. */
module Pagination {
  import opened Seqs

  /** `Math.ceil(totalItems / itemsPerPage)`. */
  function TotalPages(totalItems: nat, itemsPerPage: nat): nat
    requires itemsPerPage > 0
  {
    (totalItems + itemsPerPage - 1) / itemsPerPage
  }

  /** The page count is the ceiling of the quotient: enough pages for every item, and no page
      wholly empty; no items means no pages. */
  lemma TotalPagesIsCeiling(totalItems: nat, itemsPerPage: nat)
    requires itemsPerPage > 0
    ensures totalItems <= TotalPages(totalItems, itemsPerPage) * itemsPerPage
    ensures TotalPages(totalItems, itemsPerPage) > 0 ==> (TotalPages(totalItems, itemsPerPage) - 1) * itemsPerPage < totalItems
    ensures TotalPages(totalItems, itemsPerPage) == 0 <==> totalItems == 0
  {
    var n: int := itemsPerPage;
    var t: int := TotalPages(totalItems, itemsPerPage);
    var r := (totalItems + n - 1) % n;
    assert totalItems + n - 1 == t * n + r;
    assert (t - 1) * n == t * n - n;
  }

  /** The page `nextPage` moves to: one further, unless already on the last page. */
  function Next(c: int, total: nat): int {
    if c < total then c + 1 else c
  }

  /** The page `prevPage` moves to: one back, unless already on page 1. */
  function Prev(c: int): int {
    if c > 1 then c - 1 else c
  }

  /** The page `goToPage(p)` moves to: `max(1, min(p, total))`. */
  function Clamp(p: int, total: nat): int {
    var low := if p < total then p else total;
    if 1 > low then 1 else low
  }

  /** A page number shown for `total` pages: from 1 to the last page (page 1 when there are none). */
  predicate InRange(c: int, total: nat) {
    1 <= c && (c <= total || c == 1)
  }

  /** `goToPage` always lands in range, and on `p` itself when `p` is in range. */
  lemma ClampInRange(p: int, total: nat)
    ensures InRange(Clamp(p, total), total)
    ensures 1 <= p <= total ==> Clamp(p, total) == p
    ensures p < 1 ==> Clamp(p, total) == 1
    ensures total >= 1 && p > total ==> Clamp(p, total) == total
  {
  }

  /** `nextPage` and `prevPage` keep the page in range. */
  lemma StepsKeepRange(c: int, total: nat)
    requires InRange(c, total)
    ensures InRange(Next(c, total), total) && InRange(Prev(c), total)
  {
  }

  /** Going forward then back returns to the starting page, from any page before the last. */
  lemma NextThenPrev(c: int, total: nat)
    requires 1 <= c < total
    ensures Prev(Next(c, total)) == c
  {
  }

  /** `getPageItems`: the items of page `c`. */
  function PageItems<T>(items: seq<T>, c: int, itemsPerPage: nat): seq<T> {
    var start := (c - 1) * itemsPerPage;
    Slice(items, start, start + itemsPerPage)
  }

  /** A page holds at most `itemsPerPage` items. */
  lemma PageItemsBound<T>(items: seq<T>, c: int, itemsPerPage: nat)
    ensures |PageItems(items, c, itemsPerPage)| <= itemsPerPage
  {
    var start := (c - 1) * itemsPerPage;
    SliceLength(items, start, start + itemsPerPage);
  }

  lemma MulMono(a: int, b: int, n: int)
    requires a <= b && n >= 0
    ensures a * n <= b * n
  {
    assert b * n - a * n == (b - a) * n;
  }

  /** Item `k` falls on a counted page. */
  lemma PageIsCounted(len: nat, n: nat, k: nat)
    requires n > 0 && k < len
    ensures k / n + 1 <= TotalPages(len, n)
  {
    var q := k / n;
    var t: int := TotalPages(len, n);
    TotalPagesIsCeiling(len, n);
    assert q * n <= k;
    if t <= q {
      MulMono(t, q, n);
      assert false;
    }
  }

  /** Position `r` of page `c` holds item `(c - 1) * itemsPerPage + r`. */
  lemma PageAt<T>(items: seq<T>, itemsPerPage: nat, c: int, r: nat)
    requires 1 <= c && r < itemsPerPage && (c - 1) * itemsPerPage + r < |items|
    ensures r < |PageItems(items, c, itemsPerPage)|
    ensures PageItems(items, c, itemsPerPage)[r] == items[(c - 1) * itemsPerPage + r]
  {
    var start := (c - 1) * itemsPerPage;
    MulMono(0, c - 1, itemsPerPage);
    assert SliceIndex(start, |items|) == start;
  }

  /** Every item is on exactly the page its index says, at the position its index says, and that
      page is one of the counted pages. */
  lemma PageOfItem<T>(items: seq<T>, itemsPerPage: nat, k: nat)
    requires itemsPerPage > 0 && k < |items|
    ensures 1 <= k / itemsPerPage + 1 <= TotalPages(|items|, itemsPerPage)
    ensures k % itemsPerPage < |PageItems(items, k / itemsPerPage + 1, itemsPerPage)|
    ensures PageItems(items, k / itemsPerPage + 1, itemsPerPage)[k % itemsPerPage] == items[k]
  {
    PageIsCounted(|items|, itemsPerPage, k);
    var c := k / itemsPerPage + 1;
    var r := k % itemsPerPage;
    assert (c - 1) * itemsPerPage + r == k;
    PageAt(items, itemsPerPage, c, r);
  }

  /** The pagination state of one table: the items, the page size, and the current page. */
  class PageCursor {
    var currentPage: int
    const totalItems: nat
    const itemsPerPage: nat

    constructor(totalItems: nat, itemsPerPage: nat, initialPage: int)
      requires itemsPerPage > 0
      ensures this.totalItems == totalItems && this.itemsPerPage == itemsPerPage && currentPage == initialPage
    {
      this.totalItems := totalItems;
      this.itemsPerPage := itemsPerPage;
      currentPage := initialPage;
    }

    function Pages(): nat
      reads this
      requires itemsPerPage > 0
    {
      TotalPages(totalItems, itemsPerPage)
    }

    method NextPage()
      requires itemsPerPage > 0
      modifies this
      ensures currentPage == Next(old(currentPage), Pages())
      ensures InRange(old(currentPage), Pages()) ==> InRange(currentPage, Pages())
    {
      if currentPage < Pages() {
        currentPage := currentPage + 1;
      }
    }

    method PrevPage()
      requires itemsPerPage > 0
      modifies this
      ensures currentPage == Prev(old(currentPage))
      ensures InRange(old(currentPage), Pages()) ==> InRange(currentPage, Pages())
    {
      if currentPage > 1 {
        currentPage := currentPage - 1;
      }
    }

    method GoToPage(page: int)
      requires itemsPerPage > 0
      modifies this
      ensures currentPage == Clamp(page, Pages()) && InRange(currentPage, Pages())
    {
      ClampInRange(page, Pages());
      var low := if page < Pages() then page else Pages();
      currentPage := if 1 > low then 1 else low;
    }

    /** `getPageItems`: the current page's items. */
    function GetPageItems<T>(items: seq<T>): (r: seq<T>)
      reads this
      ensures |r| <= itemsPerPage
    {
      PageItemsBound(items, currentPage, itemsPerPage);
      PageItems(items, currentPage, itemsPerPage)
    }
  }
}
