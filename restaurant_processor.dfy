/**
 * `useRestaurantProcessor`: reads the restaurants slice and the list state,
 * picks the sort strategy for the `sort` read from the URL, runs
 * `processRestaurants`, and reports the counts and whether any filter is
 * active. The filter strategies come from a registry that is not part of this
 * model, so they are a parameter.
 */
module RestaurantProcessor {
  import opened Wrappers
  import opened Restaurants
  import opened SearchParams
  import opened SortStrategy
  import opened RestaurantUtils
  import RestaurantListState
  import ListParams

  /** The object the hook returns. */
  datatype ProcessorView = ProcessorView(
    restaurants: seq<Restaurant>,
    loading: bool,
    error: Option<string>,
    processedRestaurants: seq<Restaurant>,
    searchQuery: string,
    hasActiveFilters: bool,
    totalRestaurants: nat,
    filteredCount: nat)

  /** `!!(searchQuery || openNow || isNew || freeDelivery)`. */
  predicate HasActiveFilters(s: RestaurantListState.ListState) {
    s.searchQuery != "" || s.openNow || s.isNew || s.freeDelivery
  }

  /**
   * One render of the hook, given the slice's fields, the URL's parameters
   * and the filter strategies the registry built for them.
   */
  method UseRestaurantProcessor(
    restaurants: seq<Restaurant>, loading: bool, error: Option<string>,
    searchParams: Params, filterStrategies: seq<Filter>)
    returns (view: ProcessorView)
    ensures var state := RestaurantListState.Read(searchParams);
      view.processedRestaurants == Sort(GetStrategy(state.sort), ApplyFilters(restaurants, filterStrategies))
      && view.searchQuery == state.searchQuery
      && (view.hasActiveFilters <==> HasActiveFilters(state))
    ensures view.restaurants == restaurants && view.loading == loading && view.error == error
    ensures view.totalRestaurants == |restaurants|
    ensures view.filteredCount == |view.processedRestaurants|
  {
    var state := RestaurantListState.Read(searchParams);
    var sortStrategy := GetStrategy(state.sort);
    var processedRestaurants := ProcessRestaurants(restaurants, filterStrategies, sortStrategy);
    view := ProcessorView(
      restaurants, loading, error, processedRestaurants, state.searchQuery,
      HasActiveFilters(state), |restaurants|, |processedRestaurants|);
  }

  /**
   * With only the search filter, the count shown never exceeds the total and
   * every restaurant shown is one of the slice's restaurants.
   */
  lemma SearchOnlyCounts(restaurants: seq<Restaurant>, searchParams: Params, filterStrategies: seq<Filter>)
    requires forall i :: 0 <= i < |filterStrategies| ==> filterStrategies[i].Search?
    ensures var processed := Sort(GetStrategy(RestaurantListState.Read(searchParams).sort),
                                  ApplyFilters(restaurants, filterStrategies));
      |processed| <= |restaurants| &&
      forall r :: r in processed ==> r in restaurants
  {
    var o := GetStrategy(RestaurantListState.Read(searchParams).sort);
    var filtered := ApplyFilters(restaurants, filterStrategies);
    SearchPipelineShrinks(restaurants, filterStrategies, o);
    forall r | r in Sort(o, filtered)
      ensures r in restaurants
    {
      assert r in multiset(Sort(o, filtered));
      assert r in multiset(filtered);
      Subsequences.SubsequenceElements(filtered, restaurants);
    }
  }

  /**
   * With no filter strategies and no `sort` in the URL, the list is shown as
   * the slice holds it.
   */
  lemma DefaultViewIsUnchanged(restaurants: seq<Restaurant>, searchParams: Params)
    requires ListParams.SortKey !in searchParams
    ensures Sort(GetStrategy(RestaurantListState.Read(searchParams).sort), ApplyFilters(restaurants, [])) == restaurants
  {
    RegistryRoundTrip(BestMatch);
  }

  /** A URL without any of the list keys has no active filter. */
  lemma EmptyUrlHasNoActiveFilter()
    ensures !HasActiveFilters(RestaurantListState.Read(map[]))
  {
  }
}
