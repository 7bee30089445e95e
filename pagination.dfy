/**
 * The pagination control: the previous and next handlers, and the list of
 * page numbers and ellipses it shows, a window of `maxVisiblePages` pages
 * around the current page with the first and last page always reachable.
 * Page numbers are integers here.
 */
module Pagination {
  import opened Wrappers

  /** An entry of `getVisiblePages()`: a page number or the string "...". */
  datatype PageItem = Page(number: int) | Ellipsis

  function Max(a: int, b: int): int { if a >= b then a else b }
  function Min(a: int, b: int): int { if a <= b then a else b }

  /** The pages `a`, `a + 1`, ..., `b`, as the `for` loops push them. */
  function Range(a: int, b: int): (r: seq<PageItem>)
    ensures |r| == if a <= b then b - a + 1 else 0
    ensures forall i :: 0 <= i < |r| ==> r[i] == Page(a + i)
    decreases b - a
  {
    if a > b then [] else [Page(a)] + Range(a + 1, b)
  }

  /** A range grows at its end, as the loops push. */
  lemma RangeSnoc(a: int, b: int)
    requires a <= b
    ensures Range(a, b) == Range(a, b - 1) + [Page(b)]
  {
    assert |Range(a, b)| == |Range(a, b - 1) + [Page(b)]|;
    forall i | 0 <= i < |Range(a, b)|
      ensures Range(a, b)[i] == (Range(a, b - 1) + [Page(b)])[i]
    {
      if i < b - a {
        assert (Range(a, b - 1) + [Page(b)])[i] == Range(a, b - 1)[i];
      }
    }
  }

  /** `start` before the adjustment: the current page less half the window, at least 1. */
  function InitialStart(currentPage: int, maxVisiblePages: int): (r: int)
    ensures 1 <= r && currentPage - maxVisiblePages / 2 <= r
    ensures r == 1 || r == currentPage - maxVisiblePages / 2
  {
    // `Math.floor(maxVisiblePages / 2)`: Dafny's `/` by 2 rounds down as well.
    Max(1, currentPage - maxVisiblePages / 2)
  }

  /** `end`: computed from the unadjusted start. */
  function WindowEnd(currentPage: int, totalPages: int, maxVisiblePages: int): (r: int)
    ensures r <= totalPages && r <= InitialStart(currentPage, maxVisiblePages) + maxVisiblePages - 1
    ensures r == totalPages || r == InitialStart(currentPage, maxVisiblePages) + maxVisiblePages - 1
  {
    Min(totalPages, InitialStart(currentPage, maxVisiblePages) + maxVisiblePages - 1)
  }

  /** `start` after it is pulled back when the window runs past the last page. */
  function WindowStart(currentPage: int, totalPages: int, maxVisiblePages: int): (r: int)
    ensures 1 <= r <= InitialStart(currentPage, maxVisiblePages)
    ensures r < InitialStart(currentPage, maxVisiblePages) ==>
      WindowEnd(currentPage, totalPages, maxVisiblePages) - InitialStart(currentPage, maxVisiblePages) + 1 < maxVisiblePages
  {
    var start := InitialStart(currentPage, maxVisiblePages);
    var end := WindowEnd(currentPage, totalPages, maxVisiblePages);
    if end - start + 1 < maxVisiblePages then Max(1, end - maxVisiblePages + 1) else start
  }

  /** The first page and an ellipsis when the window does not reach them. */
  function Head(start: int): (r: seq<PageItem>)
    ensures r == [] <==> start <= 1
    ensures r != [] ==> r[0] == Page(1) && (|r| == 2 <==> start > 2) && |r| <= 2
    ensures |r| == 2 ==> r[1] == Ellipsis
  {
    if start > 1 then [Page(1)] + (if start > 2 then [Ellipsis] else []) else []
  }

  /** An ellipsis and the last page when the window does not reach them. */
  function Tail(end: int, totalPages: int): (r: seq<PageItem>)
    ensures r == [] <==> end >= totalPages
    ensures r != [] ==> r[|r| - 1] == Page(totalPages) && (|r| == 2 <==> end < totalPages - 1) && |r| <= 2
    ensures |r| == 2 ==> r[0] == Ellipsis
  {
    if end < totalPages then (if end < totalPages - 1 then [Ellipsis] else []) + [Page(totalPages)] else []
  }

  /** What `getVisiblePages()` returns. */
  function VisiblePages(currentPage: int, totalPages: int, maxVisiblePages: int): (r: seq<PageItem>)
    ensures totalPages <= maxVisiblePages ==> |r| == Max(totalPages, 0)
    ensures 1 <= maxVisiblePages < totalPages ==> |r| <= maxVisiblePages + 4
  {
    if totalPages <= maxVisiblePages then Range(1, totalPages)
    else
      var start := WindowStart(currentPage, totalPages, maxVisiblePages);
      var end := WindowEnd(currentPage, totalPages, maxVisiblePages);
      Head(start) + Range(start, end) + Tail(end, totalPages)
  }

  /** The `for` loop of `getVisiblePages`: push the pages `a` to `b` in order. */
  method PushRange(pages: seq<PageItem>, a: int, b: int) returns (r: seq<PageItem>)
    ensures r == pages + Range(a, b)
  {
    r := pages;
    var i := a;
    while i <= b
      invariant a <= i <= Max(a, b + 1)
      invariant r == pages + Range(a, i - 1)
      decreases b - i
    {
      RangeSnoc(a, i);
      r := r + [Page(i)];
      i := i + 1;
    }
  }

  /** `getVisiblePages`. */
  method GetVisiblePages(currentPage: int, totalPages: int, maxVisiblePages: int) returns (pages: seq<PageItem>)
    ensures pages == VisiblePages(currentPage, totalPages, maxVisiblePages)
  {
    pages := [];
    if totalPages <= maxVisiblePages {
      pages := PushRange(pages, 1, totalPages);
    } else {
      var start := Max(1, currentPage - maxVisiblePages / 2);
      var end := Min(totalPages, start + maxVisiblePages - 1);
      if end - start + 1 < maxVisiblePages {
        start := Max(1, end - maxVisiblePages + 1);
      }
      assert start == WindowStart(currentPage, totalPages, maxVisiblePages);
      assert end == WindowEnd(currentPage, totalPages, maxVisiblePages);
      if start > 1 {
        pages := pages + [Page(1)];
        if start > 2 {
          pages := pages + [Ellipsis];
        }
      }
      assert pages == Head(start);
      pages := PushRange(pages, start, end);
      ghost var window := pages;
      if end < totalPages {
        if end < totalPages - 1 {
          pages := pages + [Ellipsis];
        }
        pages := pages + [Page(totalPages)];
      }
      assert pages == window + Tail(end, totalPages);
    }
  }

  /** When every page fits, the list is 1, 2, ..., `totalPages` and nothing else. */
  lemma AllPagesShown(currentPage: int, totalPages: int, maxVisiblePages: int)
    requires 0 <= totalPages <= maxVisiblePages
    ensures var pages := VisiblePages(currentPage, totalPages, maxVisiblePages);
      |pages| == totalPages && forall i :: 0 <= i < totalPages ==> pages[i] == Page(i + 1)
  {
  }

  /**
   * When not every page fits, the window holds exactly `maxVisiblePages`
   * pages inside 1..`totalPages`, and it holds the current page when that is
   * a real page.
   */
  lemma WindowBounds(currentPage: int, totalPages: int, maxVisiblePages: int)
    requires 1 <= maxVisiblePages < totalPages
    ensures var start := WindowStart(currentPage, totalPages, maxVisiblePages);
      var end := WindowEnd(currentPage, totalPages, maxVisiblePages);
      1 <= start <= end <= totalPages && end - start + 1 == maxVisiblePages &&
      (1 <= currentPage <= totalPages ==> start <= currentPage <= end)
  {
  }

  /** Neighbouring pages are consecutive. */
  predicate Consecutive(pages: seq<PageItem>) {
    forall i :: 0 <= i < |pages| - 1 && pages[i].Page? && pages[i + 1].Page? ==>
      pages[i + 1].number == pages[i].number + 1
  }

  /** An ellipsis stands only between two pages more than one apart. */
  predicate EllipsesMarkGaps(pages: seq<PageItem>) {
    forall i :: 0 <= i < |pages| && pages[i].Ellipsis? ==>
      0 < i < |pages| - 1 && pages[i - 1].Page? && pages[i + 1].Page? &&
      pages[i + 1].number > pages[i - 1].number + 1
  }

  /**
   * The list shown is well formed: it starts at page 1 and ends at the last
   * page, neighbouring pages are consecutive, and an ellipsis stands only
   * between two pages more than one apart.
   */
  predicate WellFormed(pages: seq<PageItem>, totalPages: int) {
    |pages| > 0 && pages[0] == Page(1) && pages[|pages| - 1] == Page(totalPages) &&
    Consecutive(pages) && EllipsesMarkGaps(pages)
  }

  lemma WindowedConsecutive(start: int, end: int, totalPages: int)
    requires 1 <= start <= end <= totalPages
    ensures Consecutive(Head(start) + Range(start, end) + Tail(end, totalPages))
  {
    var head, mid, tail := Head(start), Range(start, end), Tail(end, totalPages);
    var pages := head + mid + tail;
    forall i | 0 <= i < |pages| - 1 && pages[i].Page? && pages[i + 1].Page?
      ensures pages[i + 1].number == pages[i].number + 1
    {
      if i + 1 < |head| {
      } else if i + 1 == |head| {
        assert pages[i] == Page(1) && pages[i + 1] == mid[0];
      } else if i + 1 < |head| + |mid| {
        assert pages[i] == mid[i - |head|] && pages[i + 1] == mid[i + 1 - |head|];
      } else if i + 1 == |head| + |mid| {
        assert pages[i] == Page(end) && pages[i + 1] == tail[0];
      }
    }
  }

  lemma WindowedEllipses(start: int, end: int, totalPages: int)
    requires 1 <= start <= end <= totalPages
    ensures EllipsesMarkGaps(Head(start) + Range(start, end) + Tail(end, totalPages))
  {
    var head, mid, tail := Head(start), Range(start, end), Tail(end, totalPages);
    var pages := head + mid + tail;
    forall i | 0 <= i < |pages| && pages[i].Ellipsis?
      ensures 0 < i < |pages| - 1 && pages[i - 1].Page? && pages[i + 1].Page?
      ensures pages[i + 1].number > pages[i - 1].number + 1
    {
      if i < |head| {
        assert i == 1 && pages[0] == Page(1) && pages[2] == mid[0];
      } else if i >= |head| + |mid| {
        assert i == |head| + |mid| && pages[i - 1] == Page(end) && pages[i + 1] == Page(totalPages);
      }
    }
  }

  lemma VisiblePagesWellFormed(currentPage: int, totalPages: int, maxVisiblePages: int)
    requires 1 <= totalPages && 1 <= maxVisiblePages
    ensures WellFormed(VisiblePages(currentPage, totalPages, maxVisiblePages), totalPages)
  {
    if totalPages > maxVisiblePages {
      WindowBounds(currentPage, totalPages, maxVisiblePages);
      var start := WindowStart(currentPage, totalPages, maxVisiblePages);
      var end := WindowEnd(currentPage, totalPages, maxVisiblePages);
      WindowedConsecutive(start, end, totalPages);
      WindowedEllipses(start, end, totalPages);
      var pages := Head(start) + Range(start, end) + Tail(end, totalPages);
      assert pages[0] == Page(1);
      assert pages[|pages| - 1] == Page(totalPages);
    }
  }

  /** The page a click on "Previous" requests, if any. */
  function HandlePrevious(currentPage: int): (r: Option<int>)
    ensures r.Some? <==> currentPage > 1
    ensures r.Some? ==> r.value == currentPage - 1
  {
    if currentPage > 1 then Some(currentPage - 1) else None
  }

  /** The page a click on "Next" requests, if any. */
  function HandleNext(currentPage: int, totalPages: int): (r: Option<int>)
    ensures r.Some? <==> currentPage < totalPages
    ensures r.Some? ==> r.value == currentPage + 1
  {
    if currentPage < totalPages then Some(currentPage + 1) else None
  }

  /** From a real page, the handlers only ever request a real page. */
  lemma HandlersStayInRange(currentPage: int, totalPages: int)
    requires 1 <= currentPage <= totalPages
    ensures HandlePrevious(currentPage).Some? ==> 1 <= HandlePrevious(currentPage).value <= totalPages
    ensures HandleNext(currentPage, totalPages).Some? ==> 1 <= HandleNext(currentPage, totalPages).value <= totalPages
  {
  }

  /** A rendered entry: an ellipsis, or a button for a page, disabled when it is the current one. */
  datatype ItemView = EllipsisView | PageButton(pageNumber: int, isActive: bool)

  /** The rendered control. */
  datatype NavView = NavView(previousDisabled: bool, nextDisabled: bool, items: seq<ItemView>)

  function ViewItem(item: PageItem, currentPage: int): ItemView {
    match item
    case Ellipsis => EllipsisView
    case Page(n) => PageButton(n, n == currentPage)
  }

  function ViewItems(pages: seq<PageItem>, currentPage: int): (r: seq<ItemView>)
    ensures |r| == |pages|
    ensures forall i :: 0 <= i < |r| ==> r[i] == ViewItem(pages[i], currentPage)
  {
    if pages == [] then [] else [ViewItem(pages[0], currentPage)] + ViewItems(pages[1..], currentPage)
  }

  /**
   * The component: nothing for one page or fewer; otherwise the two buttons,
   * disabled on the first and the last page, and the entries when
   * `showPageNumbers` is set.
   */
  function Render(currentPage: int, totalPages: int, showPageNumbers: bool, maxVisiblePages: int): (r: Option<NavView>)
    ensures r.None? <==> totalPages <= 1
    ensures r.Some? ==> (r.value.previousDisabled <==> currentPage == 1)
    ensures r.Some? ==> (r.value.nextDisabled <==> currentPage == totalPages)
    ensures r.Some? && !showPageNumbers ==> r.value.items == []
    ensures r.Some? && showPageNumbers ==> |r.value.items| == |VisiblePages(currentPage, totalPages, maxVisiblePages)|
    ensures r.Some? && showPageNumbers ==> r.value.items == ViewItems(VisiblePages(currentPage, totalPages, maxVisiblePages), currentPage)
  {
    if totalPages <= 1 then None
    else
      var items := if showPageNumbers then ViewItems(VisiblePages(currentPage, totalPages, maxVisiblePages), currentPage) else [];
      Some(NavView(currentPage == 1, currentPage == totalPages, items))
  }

  /** A disabled navigation button is one whose handler would do nothing. */
  lemma DisabledButtonsDoNothing(currentPage: int, totalPages: int, showPageNumbers: bool, maxVisiblePages: int)
    requires Render(currentPage, totalPages, showPageNumbers, maxVisiblePages).Some?
    ensures Render(currentPage, totalPages, showPageNumbers, maxVisiblePages).value.previousDisabled ==> HandlePrevious(currentPage).None?
    ensures Render(currentPage, totalPages, showPageNumbers, maxVisiblePages).value.nextDisabled ==> HandleNext(currentPage, totalPages).None?
  {
  }

  /**
   * With the page numbers shown and the current page a real page, exactly
   * one button is active, and it is the current page's.
   */
  lemma OneActiveButton(currentPage: int, totalPages: int, maxVisiblePages: int)
    requires 1 <= currentPage <= totalPages && 2 <= totalPages && 1 <= maxVisiblePages
    ensures var items := Render(currentPage, totalPages, true, maxVisiblePages).value.items;
      (exists i :: 0 <= i < |items| && items[i] == PageButton(currentPage, true)) &&
      (forall i, j ::
         (0 <= i < |items| && 0 <= j < |items| && items[i].PageButton? && items[i].isActive &&
          items[j].PageButton? && items[j].isActive) ==> i == j)
  {
    var pages := VisiblePages(currentPage, totalPages, maxVisiblePages);
    assert Render(currentPage, totalPages, true, maxVisiblePages).value.items == ViewItems(pages, currentPage);
    VisiblePagesShowCurrent(currentPage, totalPages, maxVisiblePages);
    VisiblePagesWellFormed(currentPage, totalPages, maxVisiblePages);
    WellFormedIncreasingAll(pages, totalPages);
    OnlyCurrentIsActive(pages, currentPage);
  }

  /** In a well-formed list every later page number is larger. */
  lemma WellFormedIncreasingAll(pages: seq<PageItem>, totalPages: int)
    requires WellFormed(pages, totalPages)
    ensures Increasing(pages)
  {
    forall i, j | 0 <= i < j < |pages| && pages[i].Page? && pages[j].Page?
      ensures pages[i].number < pages[j].number
    {
      WellFormedIncreasing(pages, totalPages, i, j);
    }
  }

  /** Every page number shown lies within 1..total. */
  lemma VisiblePagesInRange(currentPage: int, totalPages: int, maxVisiblePages: int)
    requires 1 <= totalPages && 1 <= maxVisiblePages
    ensures forall i ::
      (0 <= i < |VisiblePages(currentPage, totalPages, maxVisiblePages)| &&
       VisiblePages(currentPage, totalPages, maxVisiblePages)[i].Page?) ==>
      1 <= VisiblePages(currentPage, totalPages, maxVisiblePages)[i].number <= totalPages
  {
    var pages := VisiblePages(currentPage, totalPages, maxVisiblePages);
    VisiblePagesWellFormed(currentPage, totalPages, maxVisiblePages);
    WellFormedIncreasingAll(pages, totalPages);
    forall i | 0 <= i < |pages| && pages[i].Page?
      ensures 1 <= pages[i].number <= totalPages
    {
      if 0 < i {
        assert pages[0].number < pages[i].number;
      }
      if i < |pages| - 1 {
        assert pages[i].number < pages[|pages| - 1].number;
      }
    }
  }

  predicate Increasing(pages: seq<PageItem>) {
    forall i, j :: 0 <= i < j < |pages| && pages[i].Page? && pages[j].Page? ==> pages[i].number < pages[j].number
  }

  /** In an increasing list holding the current page, exactly that page's button is active. */
  lemma OnlyCurrentIsActive(pages: seq<PageItem>, currentPage: int)
    requires Increasing(pages)
    requires exists k :: 0 <= k < |pages| && pages[k] == Page(currentPage)
    ensures exists i :: 0 <= i < |ViewItems(pages, currentPage)| && ViewItems(pages, currentPage)[i] == PageButton(currentPage, true)
    ensures forall i, j ::
      (0 <= i < |ViewItems(pages, currentPage)| && 0 <= j < |ViewItems(pages, currentPage)| &&
       ViewItems(pages, currentPage)[i].PageButton? && ViewItems(pages, currentPage)[i].isActive &&
       ViewItems(pages, currentPage)[j].PageButton? && ViewItems(pages, currentPage)[j].isActive) ==> i == j
  {
    var items := ViewItems(pages, currentPage);
    var k :| 0 <= k < |pages| && pages[k] == Page(currentPage);
    assert items[k] == ViewItem(pages[k], currentPage) == PageButton(currentPage, true);
    forall i | 0 <= i < |items| && items[i].PageButton? && items[i].isActive
      ensures pages[i] == Page(currentPage)
    {
      assert items[i] == ViewItem(pages[i], currentPage);
    }
    forall i, j | 0 <= i < |pages| && 0 <= j < |pages| && pages[i] == Page(currentPage) && pages[j] == Page(currentPage)
      ensures i == j
    {
    }
    assert 0 <= k < |items| && items[k] == PageButton(currentPage, true);
  }

  /** The current page, when it is a real page, is among the entries. */
  lemma VisiblePagesShowCurrent(currentPage: int, totalPages: int, maxVisiblePages: int)
    requires 1 <= currentPage <= totalPages && 1 <= maxVisiblePages
    ensures exists k ::
      0 <= k < |VisiblePages(currentPage, totalPages, maxVisiblePages)| &&
      VisiblePages(currentPage, totalPages, maxVisiblePages)[k] == Page(currentPage)
  {
    var pages := VisiblePages(currentPage, totalPages, maxVisiblePages);
    if totalPages <= maxVisiblePages {
      assert pages[currentPage - 1] == Page(currentPage);
    } else {
      WindowBounds(currentPage, totalPages, maxVisiblePages);
      var start := WindowStart(currentPage, totalPages, maxVisiblePages);
      var end := WindowEnd(currentPage, totalPages, maxVisiblePages);
      var head, mid := Head(start), Range(start, end);
      assert pages[|head| + (currentPage - start)] == mid[currentPage - start];
    }
  }

  /** In a well-formed list the page numbers strictly increase. */
  lemma {:induction false} WellFormedIncreasing(pages: seq<PageItem>, totalPages: int, i: int, j: int)
    requires WellFormed(pages, totalPages)
    requires 0 <= i < j < |pages| && pages[i].Page? && pages[j].Page?
    ensures pages[i].number < pages[j].number
    decreases j - i
  {
    if pages[i + 1].Page? {
      if i + 1 < j {
        WellFormedIncreasing(pages, totalPages, i + 1, j);
      }
    } else {
      assert pages[i + 2].Page?;
      if i + 2 < j {
        WellFormedIncreasing(pages, totalPages, i + 2, j);
      }
    }
  }
}
