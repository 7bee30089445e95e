/**
 * The restaurant list view: one page of `itemsPerPage` restaurants out of
 * the processed list, the "Showing a-b of n restaurants" label, the
 * pagination control, and the effect that sends a user on a page past the
 * last one back to page 1.
 */
module RestaurantList {
  import opened Wrappers
  import opened Restaurants
  import Pagination

  const DefaultItemsPerPage := 12
  const DefaultCurrentPage := 1

  /** JavaScript's relative index: from the end when negative, clamped to 0..length. */
  function RelativeIndex(i: int, length: nat): (r: nat)
    ensures r <= length
    ensures 0 <= i ==> r == if i <= length then i else length
  {
    if i < 0 then (if length + i < 0 then 0 else length + i) else if i <= length then i else length
  }

  /** `Array.prototype.slice(start, end)`. */
  function JsSlice<T>(s: seq<T>, start: int, end: int): (r: seq<T>)
    ensures |r| <= |s|
  {
    var from := RelativeIndex(start, |s|);
    var to := RelativeIndex(end, |s|);
    if from >= to then [] else s[from..to]
  }

  /** For indices that are not negative, `slice` is the clamped subsequence. */
  lemma SliceNonNegative<T>(s: seq<T>, start: int, end: int)
    requires 0 <= start <= end
    ensures var from := if start <= |s| then start else |s|;
      var to := if end <= |s| then end else |s|;
      JsSlice(s, start, end) == s[from..to]
  {
  }

  /** `Math.ceil(length / itemsPerPage)` for a positive page size. */
  function TotalPages(length: nat, itemsPerPage: int): (r: nat)
    requires itemsPerPage >= 1
    ensures (r - 1) * itemsPerPage < length <= r * itemsPerPage || (length == 0 && r == 0)
  {
    (length + itemsPerPage - 1) / itemsPerPage
  }

  /** `(currentPage - 1) * itemsPerPage`: never negative from page 1 on. */
  function StartIndex(currentPage: int, itemsPerPage: int): (r: int)
    ensures currentPage >= 1 && itemsPerPage >= 0 ==> r >= 0
  {
    if currentPage >= 1 && itemsPerPage >= 0 then
      MulNonNegative(currentPage - 1, itemsPerPage);
      (currentPage - 1) * itemsPerPage
    else
      (currentPage - 1) * itemsPerPage
  }

  /** `startIndex + itemsPerPage`: the index after the last item of the page. */
  function EndIndex(currentPage: int, itemsPerPage: int): (r: int)
    ensures r == currentPage * itemsPerPage
  {
    MulSucc(currentPage, itemsPerPage);
    StartIndex(currentPage, itemsPerPage) + itemsPerPage
  }

  /** `currentRestaurants`. */
  function CurrentPage(list: seq<Restaurant>, currentPage: int, itemsPerPage: int): (r: seq<Restaurant>)
    ensures |r| <= |list|
  {
    JsSlice(list, StartIndex(currentPage, itemsPerPage), EndIndex(currentPage, itemsPerPage))
  }

  /** From page 1 on, a page is the slice of the list between its two clamped bounds. */
  lemma CurrentPageSlice(list: seq<Restaurant>, currentPage: int, itemsPerPage: int)
    requires currentPage >= 1 && itemsPerPage >= 1
    ensures var start := StartIndex(currentPage, itemsPerPage);
      var end := start + itemsPerPage;
      0 <= start &&
      CurrentPage(list, currentPage, itemsPerPage)
        == list[(if start <= |list| then start else |list|)..(if end <= |list| then end else |list|)]
  {
    var start := StartIndex(currentPage, itemsPerPage);
    MulNonNegative(currentPage - 1, itemsPerPage);
    SliceNonNegative(list, start, start + itemsPerPage);
  }

  /** On a real page the view shows the `itemsPerPage` restaurants from `(p - 1) * itemsPerPage` on, cut at the end. */
  lemma CurrentPageContents(list: seq<Restaurant>, currentPage: int, itemsPerPage: int)
    requires currentPage >= 1 && itemsPerPage >= 1
    ensures var start := StartIndex(currentPage, itemsPerPage);
      var page := CurrentPage(list, currentPage, itemsPerPage);
      |page| <= itemsPerPage &&
      (start < |list| ==> |page| == (if start + itemsPerPage <= |list| then itemsPerPage else |list| - start)) &&
      (start >= |list| ==> page == []) &&
      forall k :: 0 <= k < |page| ==> page[k] == list[start + k]
  {
    CurrentPageSlice(list, currentPage, itemsPerPage);
  }

  lemma MulNonNegative(a: int, b: int)
    requires a >= 0 && b >= 0
    ensures a * b >= 0
  {
  }

  lemma MulSucc(k: int, m: int)
    ensures k * m == (k - 1) * m + m
  {
  }

  /** The pages 1 to `k`, one after the other. */
  function PagesUpTo(list: seq<Restaurant>, itemsPerPage: int, k: nat): seq<Restaurant> {
    if k == 0 then [] else PagesUpTo(list, itemsPerPage, k - 1) + CurrentPage(list, k, itemsPerPage)
  }

  /** The first `k` pages are the first `k * itemsPerPage` restaurants. */
  lemma {:induction false} PagesUpToPrefix(list: seq<Restaurant>, itemsPerPage: int, k: nat)
    requires itemsPerPage >= 1
    ensures PagesUpTo(list, itemsPerPage, k) == list[..if k * itemsPerPage <= |list| then k * itemsPerPage else |list|]
  {
    if k > 0 {
      var before := StartIndex(k, itemsPerPage);
      var after := before + itemsPerPage;
      MulSucc(k, itemsPerPage);
      PagesUpToPrefix(list, itemsPerPage, k - 1);
      CurrentPageSlice(list, k, itemsPerPage);
      ConcatSlices(list, if before <= |list| then before else |list|, if after <= |list| then after else |list|);
    }
  }

  lemma ConcatSlices<T>(s: seq<T>, b: int, e: int)
    requires 0 <= b <= e <= |s|
    ensures s[..b] + s[b..e] == s[..e]
  {
  }

  /** Paging through all the pages shows every restaurant once, in order. */
  lemma AllPagesCoverList(list: seq<Restaurant>, itemsPerPage: int)
    requires itemsPerPage >= 1
    ensures PagesUpTo(list, itemsPerPage, TotalPages(|list|, itemsPerPage)) == list
  {
    var n := TotalPages(|list|, itemsPerPage);
    PagesUpToPrefix(list, itemsPerPage, n);
    assert n * itemsPerPage >= |list|;
  }

  /** "Showing {startRange}-{endRange} of {totalCount} restaurant(s)". */
  datatype RangeLabel = RangeLabel(startRange: int, endRange: int, totalCount: nat, plural: bool)

  /** The label, shown only when the list is not empty. */
  function Label(list: seq<Restaurant>, currentPage: int, itemsPerPage: int): (r: Option<RangeLabel>)
    ensures r.Some? <==> |list| > 0
    ensures r.Some? ==> r.value.totalCount == |list| && (r.value.plural <==> |list| != 1)
  {
    if |list| == 0 then None
    else
      var endIndex := EndIndex(currentPage, itemsPerPage);
      Some(RangeLabel(StartIndex(currentPage, itemsPerPage) + 1,
                      if endIndex <= |list| then endIndex else |list|,
                      |list|, |list| != 1))
  }

  /** On a page that has restaurants, the label counts exactly the restaurants shown. */
  lemma LabelMatchesPage(list: seq<Restaurant>, currentPage: int, itemsPerPage: int)
    requires currentPage >= 1 && itemsPerPage >= 1
    requires CurrentPage(list, currentPage, itemsPerPage) != []
    ensures var l := Label(list, currentPage, itemsPerPage).value;
      1 <= l.startRange <= l.endRange <= l.totalCount &&
      l.startRange == StartIndex(currentPage, itemsPerPage) + 1 &&
      l.endRange - l.startRange + 1 == |CurrentPage(list, currentPage, itemsPerPage)| &&
      CurrentPage(list, currentPage, itemsPerPage) == list[l.startRange - 1..l.endRange]
  {
    CurrentPageSlice(list, currentPage, itemsPerPage);
  }

  /** The effect: `onPageChange(1)` when the current page is past the last page. */
  function ResetRequest(currentPage: int, totalPages: nat, hasOnPageChange: bool): (r: Option<int>)
    ensures r.Some? <==> totalPages > 0 && currentPage > totalPages && hasOnPageChange
    ensures r.Some? ==> r.value == 1
  {
    if totalPages > 0 && currentPage > totalPages && hasOnPageChange then Some(1) else None
  }

  /** Past the last page nothing is listed, and the page the reset asks for is not empty. */
  lemma ResetLeadsToFirstPage(list: seq<Restaurant>, currentPage: int, itemsPerPage: int)
    requires itemsPerPage >= 1
    requires ResetRequest(currentPage, TotalPages(|list|, itemsPerPage), true).Some?
    ensures CurrentPage(list, currentPage, itemsPerPage) == []
    ensures CurrentPage(list, 1, itemsPerPage) != []
  {
    var n := TotalPages(|list|, itemsPerPage);
    assert |list| > 0;
    MulMonotone(n, currentPage - 1, itemsPerPage);
    assert StartIndex(currentPage, itemsPerPage) >= |list|;
    CurrentPageSlice(list, currentPage, itemsPerPage);
    assert StartIndex(1, itemsPerPage) == 0;
    CurrentPageSlice(list, 1, itemsPerPage);
  }

  lemma MulMonotone(a: int, b: int, m: int)
    requires 0 <= a <= b && m >= 0
    ensures a * m <= b * m
  {
  }

  /** What the component renders. */
  datatype ListView = ListView(
    restaurants: seq<Restaurant>,
    rangeLabel: Option<RangeLabel>,
    pagination: Option<Pagination.NavView>,
    reset: Option<int>)

  /**
   * The component: the page's restaurants, the label, the pagination control
   * when a page handler is given and the page is not empty (the control
   * itself renders nothing for one page), and the reset request.
   */
  function Render(list: seq<Restaurant>, itemsPerPage: int, currentPage: int, hasOnPageChange: bool): (v: ListView)
    requires itemsPerPage >= 1
    ensures v.restaurants == CurrentPage(list, currentPage, itemsPerPage)
    ensures v.rangeLabel == Label(list, currentPage, itemsPerPage)
    ensures v.pagination.Some? ==> hasOnPageChange && v.restaurants != [] && TotalPages(|list|, itemsPerPage) > 1
    ensures hasOnPageChange && v.restaurants != [] && TotalPages(|list|, itemsPerPage) > 1 ==> v.pagination.Some?
    ensures v.reset == ResetRequest(currentPage, TotalPages(|list|, itemsPerPage), hasOnPageChange)
    ensures v.pagination.Some? ==> v.pagination == Pagination.Render(currentPage, TotalPages(|list|, itemsPerPage), true, 5)
  {
    var totalPages := TotalPages(|list|, itemsPerPage);
    var current := CurrentPage(list, currentPage, itemsPerPage);
    ListView(
      current,
      Label(list, currentPage, itemsPerPage),
      if hasOnPageChange && |current| > 0 then Pagination.Render(currentPage, totalPages, true, 5) else None,
      ResetRequest(currentPage, totalPages, hasOnPageChange))
  }

  /** A page that lists restaurants is a page the control can show. */
  lemma NonEmptyPageIsInRange(list: seq<Restaurant>, currentPage: int, itemsPerPage: int)
    requires currentPage >= 1 && itemsPerPage >= 1
    requires CurrentPage(list, currentPage, itemsPerPage) != []
    ensures currentPage <= TotalPages(|list|, itemsPerPage)
  {
    CurrentPageSlice(list, currentPage, itemsPerPage);
    var n := TotalPages(|list|, itemsPerPage);
    assert StartIndex(currentPage, itemsPerPage) < |list| <= n * itemsPerPage;
    MulCancel(currentPage - 1, n, itemsPerPage);
  }

  lemma MulCancel(a: int, b: int, m: int)
    requires m > 0 && a * m < b * m
    ensures a < b
  {
    if a >= b {
      MulMonotoneInt(b, a, m);
    }
  }

  lemma MulMonotoneInt(a: int, b: int, m: int)
    requires a <= b && m >= 0
    ensures a * m <= b * m
  {
    MulNonNegative(b - a, m);
  }

  /** With the defaults, the first twelve restaurants are listed. */
  lemma DefaultsShowFirstTwelve(list: seq<Restaurant>)
    ensures CurrentPage(list, DefaultCurrentPage, DefaultItemsPerPage) == list[..if |list| <= 12 then |list| else 12]
  {
    CurrentPageContents(list, 1, 12);
  }
}
