/**
 * `processRestaurants`: apply the filter strategies in list order, each to the
 * previous one's output, then the sort strategy once to the final list.
 */
module RestaurantUtils {
  import opened Restaurants
  import opened Subsequences
  import FilterStrategy
  import opened SortStrategy

  /**
   * A filter strategy: the search-query filter, or a strategy defined outside
   * this model (such as the facet filters), given by its `apply`.
   */
  datatype Filter =
    | Search(search: FilterStrategy.FilterBySearchQuery)
    | External(apply: seq<Restaurant> -> seq<Restaurant>)

  /** `filterStrategy.apply(data)`. */
  function ApplyFilter(filter: Filter, data: seq<Restaurant>): seq<Restaurant> {
    match filter
    case Search(f) => FilterStrategy.Apply(f, data)
    case External(apply) => apply(data)
  }

  /** Every filter is the search-query filter. */
  predicate AllSearch(filters: seq<Filter>) {
    forall i :: 0 <= i < |filters| ==> filters[i].Search?
  }

  /**
   * The filters applied in list order, starting from `data`; search filters
   * alone never make the list longer.
   */
  function ApplyFilters(data: seq<Restaurant>, filters: seq<Filter>): (r: seq<Restaurant>)
    ensures AllSearch(filters) ==> |r| <= |data|
    decreases |filters|
  {
    if filters == [] then data else ApplyFilters(ApplyFilter(filters[0], data), filters[1..])
  }

  /** `processRestaurants(restaurants, filterStrategies, sortStrategy)`. */
  method ProcessRestaurants(restaurants: seq<Restaurant>, filterStrategies: seq<Filter>, sortStrategy: SortOption)
    returns (result: seq<Restaurant>)
    ensures result == Sort(sortStrategy, ApplyFilters(restaurants, filterStrategies))
  {
    var processedRestaurants := restaurants;
    for i := 0 to |filterStrategies|
      invariant ApplyFilters(processedRestaurants, filterStrategies[i..]) == ApplyFilters(restaurants, filterStrategies)
    {
      assert filterStrategies[i..][1..] == filterStrategies[i + 1..];
      processedRestaurants := ApplyFilter(filterStrategies[i], processedRestaurants);
    }
    assert filterStrategies[|filterStrategies|..] == [];
    result := Sort(sortStrategy, processedRestaurants);
  }

  /** A further filter receives the output of all the filters before it. */
  lemma {:induction false} FiltersApplyInOrder(data: seq<Restaurant>, filters: seq<Filter>, last: Filter)
    ensures ApplyFilters(data, filters + [last]) == ApplyFilter(last, ApplyFilters(data, filters))
    decreases |filters|
  {
    if filters != [] {
      assert (filters + [last])[1..] == filters[1..] + [last];
      FiltersApplyInOrder(ApplyFilter(filters[0], data), filters[1..], last);
    }
  }

  /** With no filters the pipeline is the sort strategy on the original input. */
  lemma NoFiltersSortsInput(data: seq<Restaurant>, o: SortOption)
    ensures Sort(o, ApplyFilters(data, [])) == Sort(o, data)
  {
  }

  /**
   * Once a filter returns an empty list, and the later filters keep an empty
   * list empty (as every `Array.prototype.filter` does), the result is empty.
   */
  lemma EmptyFilterEmptiesResult(data: seq<Restaurant>, filters: seq<Filter>, k: nat, o: SortOption)
    requires k < |filters|
    requires ApplyFilter(filters[k], ApplyFilters(data, filters[..k])) == []
    requires forall j :: k < j < |filters| ==> ApplyFilter(filters[j], []) == []
    ensures Sort(o, ApplyFilters(data, filters)) == []
  {
    ApplyFiltersSplit(data, filters, k);
    var rest := filters[k..];
    assert rest[0] == filters[k];
    assert forall j :: 0 <= j < |rest[1..]| ==> rest[1..][j] == filters[k + 1 + j];
    EmptyStaysEmpty(rest[1..]);
  }

  /** Running the filters is running a prefix of them, then the rest on its output. */
  lemma {:induction false} ApplyFiltersSplit(data: seq<Restaurant>, filters: seq<Filter>, k: nat)
    requires k <= |filters|
    ensures ApplyFilters(data, filters) == ApplyFilters(ApplyFilters(data, filters[..k]), filters[k..])
    decreases k
  {
    if k == 0 {
      assert filters[..0] == [] && filters[0..] == filters;
    } else {
      var first := ApplyFilter(filters[0], data);
      TailOfPrefix(filters, k);
      assert filters[..k][0] == filters[0];
      assert ApplyFilters(data, filters[..k]) == ApplyFilters(first, filters[1..k]);
      ApplyFiltersSplit(first, filters[1..], k - 1);
    }
  }

  lemma TailOfPrefix(filters: seq<Filter>, k: nat)
    requires 0 < k <= |filters|
    ensures filters[1..][..k - 1] == filters[1..k]
    ensures filters[1..][k - 1..] == filters[k..]
    ensures filters[..k][1..] == filters[1..k]
  {
  }

  lemma {:induction false} EmptyStaysEmpty(filters: seq<Filter>)
    requires forall j :: 0 <= j < |filters| ==> ApplyFilter(filters[j], []) == []
    ensures ApplyFilters([], filters) == []
    decreases |filters|
  {
    if filters != [] {
      assert ApplyFilter(filters[0], []) == [];
      EmptyStaysEmpty(filters[1..]);
    }
  }

  /**
   * With only search filters, and any sort strategy, the output is a
   * permutation of an order-preserving subsequence of the input, and so never
   * longer than the input.
   */
  lemma {:induction false} SearchPipelineShrinks(data: seq<Restaurant>, filters: seq<Filter>, o: SortOption)
    requires forall i :: 0 <= i < |filters| ==> filters[i].Search?
    ensures IsSubsequence(ApplyFilters(data, filters), data)
    ensures multiset(Sort(o, ApplyFilters(data, filters))) == multiset(ApplyFilters(data, filters))
    ensures |Sort(o, ApplyFilters(data, filters))| <= |data|
    decreases |filters|
  {
    if filters == [] {
      SubsequenceRefl(data);
    } else {
      var first := ApplyFilter(filters[0], data);
      SearchPipelineShrinks(first, filters[1..], o);
      SubsequenceTrans(ApplyFilters(data, filters), first, data);
    }
    SubsequenceLength(ApplyFilters(data, filters), data);
  }
}
