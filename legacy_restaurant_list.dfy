/**
 * The restaurant list view as first written: the same page of restaurants,
 * no label and no reset, and the pagination control whenever a page handler
 * is given.
 */
module LegacyRestaurantList {
  import opened Wrappers
  import opened Restaurants
  import Pagination
  import RestaurantList

  datatype LegacyListView = LegacyListView(restaurants: seq<Restaurant>, pagination: Option<Pagination.NavView>)

  function Render(list: seq<Restaurant>, itemsPerPage: int, currentPage: int, hasOnPageChange: bool): (v: LegacyListView)
    requires itemsPerPage >= 1
    ensures v.restaurants == RestaurantList.CurrentPage(list, currentPage, itemsPerPage)
    ensures v.pagination.Some? <==> hasOnPageChange && RestaurantList.TotalPages(|list|, itemsPerPage) > 1
    ensures v.pagination.Some? ==>
      v.pagination == Pagination.Render(currentPage, RestaurantList.TotalPages(|list|, itemsPerPage), true, 5)
  {
    var totalPages := RestaurantList.TotalPages(|list|, itemsPerPage);
    LegacyListView(
      RestaurantList.CurrentPage(list, currentPage, itemsPerPage),
      if hasOnPageChange then Pagination.Render(currentPage, totalPages, true, 5) else None)
  }

  /**
   * Unlike the feature view, this one shows the control on a page past the
   * last one, where no restaurant is listed.
   */
  lemma ControlShownOnEmptyPage(list: seq<Restaurant>, itemsPerPage: int)
    requires itemsPerPage >= 1
    requires RestaurantList.TotalPages(|list|, itemsPerPage) > 1
    ensures var beyond := RestaurantList.TotalPages(|list|, itemsPerPage) + 1;
      Render(list, itemsPerPage, beyond, true).restaurants == [] &&
      Render(list, itemsPerPage, beyond, true).pagination.Some? &&
      RestaurantList.Render(list, itemsPerPage, beyond, true).pagination.None?
  {
    var beyond := RestaurantList.TotalPages(|list|, itemsPerPage) + 1;
    RestaurantList.ResetLeadsToFirstPage(list, beyond, itemsPerPage);
  }
}
