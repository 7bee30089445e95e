# Restaurant finder core, modelled in Dafny

This project models the logic at the centre of the restaurant-finder web app. That logic has these parts:

- **Search, filter and sort.** A search-query filter and five sort strategies. A registry maps a URL `sort` value to a strategy. The `processRestaurants` pipeline applies the filters in order and then sorts.
- **URL list state.** `useRestaurantListState` (feature and legacy versions) reads the list state from the query string, corrects a bad `page` or `sort`, and writes updates back. `useSearchParamState` binds one string, boolean or number parameter. `useRestaurantProcessor` puts the pieces together into the page's view.
- **Paging.** The window of page numbers in the pagination control, the previous and next handlers, and the slice of the list shown on the current page (feature and legacy `RestaurantList`).
- **Redux slices.** Restaurants (feature and legacy), user and counter.
- **Small helpers.** The modal-state hook and the two versions of the class-name helper `cn`.

The code's operations are modelled as follows:

- **Pure code becomes functions.** Sort comparators, filters, parameter reads and `getVisiblePages` are functions on values.
- **Loops become methods.** `processRestaurants`, `getVisiblePages` and `cn` are `method`s proved equal to those functions.
- **Updates to `URLSearchParams` become methods on maps.** The "new params" value is a `map<string, string>`, and each method states the new map and what stays the same.
- **Objects with mutable fields become classes.** The Immer drafts of the reducers and the React state of the hooks are `class`es whose methods carry `modifies` clauses.

Some JavaScript behaviour is written out explicitly:

- `Number(s)` is modelled as `ToNumber`, with `NaN` as a separate value.
- `String(n)` is modelled as `IntToString`.
- `trim` and `toLowerCase` become `Trim` and `Lower`.
- `Array.prototype.slice` keeps its negative-index semantics, as `JsSlice`.

Inputs from outside are parameters:

- the query string;
- the fetched restaurant list;
- the loading and error flags;
- the list of filter strategies;
- the `onPageChange` handler, which appears only as "present or not".

## Model

The legacy hook's validation effect, `setSearchQuery`, `setPage` and `setSort` (src/hooks/restaurant-list-state/useRestaurantListState.tsx:33-95) are the same code as the feature hook's. The `RestaurantListState` members model both versions.

| member | source | states |
|---|---|---|
| Restaurants.Ids | src/features/restaurants/types/Restaurant.ts:1-27 | the ids of a list, one per restaurant, in list order |
| FilterStrategy.KeepMatching | src/features/restaurants/strategies/filter/RestaurantFilterStrategy.ts:21-27 | the kept restaurants form a subsequence of the input; each one matches; every matching restaurant of the input is kept |
| FilterStrategy.SomeCuisineIncludesIff | src/features/restaurants/strategies/filter/RestaurantFilterStrategy.ts:24-26 | `cuisines.some(...)` holds exactly when one cuisine's lower-cased name contains the query |
| FilterStrategy.MatchesIff | src/features/restaurants/strategies/filter/RestaurantFilterStrategy.ts:22-26 | a restaurant matches exactly when its name or a cuisine is present and contains the query; a missing name or missing cuisines never match by themselves |
| FilterStrategy.BlankQueryIsIdentity | src/features/restaurants/strategies/filter/RestaurantFilterStrategy.ts:15-17 | an empty or all-whitespace query returns the input unchanged |
| FilterStrategy.ApplyKeepsExactlyMatching | src/features/restaurants/strategies/filter/RestaurantFilterStrategy.ts:14-28 | with a non-blank query, the result is an order-preserving subsequence, and a restaurant is in it exactly when it is in the input and its name or a cuisine contains the trimmed, lower-cased query |
| FilterStrategy.Apply | src/features/restaurants/strategies/filter/RestaurantFilterStrategy.ts:14-28 | for any query the result is an order-preserving subsequence of the input and never longer; a query that trims to "" returns the input itself |
| FilterStrategy.ApplyEmpty | src/features/restaurants/strategies/filter/RestaurantFilterStrategy.test.ts:235-240 | an empty list filters to an empty list |
| FilterStrategy.QueryCaseInsensitive | src/features/restaurants/strategies/filter/RestaurantFilterStrategy.ts:19 | lower-casing the query first gives the same result, so the search ignores the query's case |
| FilterStrategy.TrimStartLower | src/features/restaurants/strategies/filter/RestaurantFilterStrategy.ts:19 | trimming and lower-casing commute at the start of the string |
| FilterStrategy.TrimEndLower | src/features/restaurants/strategies/filter/RestaurantFilterStrategy.ts:19 | trimming and lower-casing commute at the end of the string |
| FilterStrategy.LowerIdempotent | src/features/restaurants/strategies/filter/RestaurantFilterStrategy.ts:19 | lower-casing twice is lower-casing once |
| SortStrategy.InOrderTotal | src/features/restaurants/strategies/sort/RestaurantSortStrategy.ts:23-61 | every comparator orders any two restaurants one way or the other |
| SortStrategy.InOrderTransitive | src/features/restaurants/strategies/sort/RestaurantSortStrategy.ts:23-61 | every comparator's order is transitive, including the ordering of unknown delivery times |
| SortStrategy.Compare | src/features/restaurants/strategies/sort/RestaurantSortStrategy.ts:25-59 | every comparator's sign is -1, 0 or 1, and "best match" (which does not sort) treats every pair as equal |
| SortStrategy.CompareAntisymmetric | src/features/restaurants/strategies/sort/RestaurantSortStrategy.ts:25-59 | swapping the two restaurants flips the sign of every comparator, two unknown delivery times included |
| SortStrategy.InsertionSort | src/features/restaurants/strategies/sort/RestaurantSortStrategy.ts:25-59 | the sort of a copy has exactly as many elements as the input |
| SortStrategy.InsertionSortCorrect | src/features/restaurants/strategies/sort/RestaurantSortStrategy.ts:23-61 | the sort of a copy is ordered by the comparator and is a permutation of the input |
| SortStrategy.Sort | src/features/restaurants/strategies/sort/RestaurantSortStrategy.ts:17-61 | every strategy returns a permutation of its input, of the same length, ordered by its comparator; "best match" returns the input in its original order |
| SortStrategy.ReviewsNonIncreasing | src/features/restaurants/strategies/sort/RestaurantSortStrategy.ts:23-31 | sorted by reviews, star ratings never increase, and a missing rating counts as 0 |
| SortStrategy.DeliveryTimeAscendingUnknownLast | src/features/restaurants/strategies/sort/RestaurantSortStrategy.ts:33-41 | sorted by delivery time, known lower bounds ascend and every restaurant with no estimate comes after those with one |
| SortStrategy.MinOrderNonDecreasing | src/features/restaurants/strategies/sort/RestaurantSortStrategy.ts:43-51 | sorted by minimum order, amounts never decrease; a missing amount counts as 0 |
| SortStrategy.DeliveryCostNonDecreasing | src/features/restaurants/strategies/sort/RestaurantSortStrategy.ts:53-61 | sorted by delivery cost, costs never decrease; a missing cost counts as 0 |
| SortStrategy.GetStrategy | src/features/restaurants/strategies/sort/RestaurantSortStrategy.ts:63-78 | the registry, as intended: a key that is an option's name selects that option, and every other key selects "best match" |
| SortStrategy.RegistryRoundTrip | src/features/restaurants/strategies/sort/RestaurantSortStrategy.ts:63-78 | looking up an option's name gives back that option |
| SortStrategy.RegistryFallback | src/features/restaurants/strategies/sort/RestaurantSortStrategy.ts:76-78 | any other key falls back to "best match" |
| SortStrategy.AsWrittenAgrees | src/features/restaurants/strategies/sort/RestaurantSortStrategy.ts:63-78 | the plain-object lookup as written agrees with the registry for every key that is not an `Object.prototype` member |
| SortStrategy.GetStrategyAsWritten | src/features/restaurants/strategies/sort/RestaurantSortStrategy.ts:76-78 | the lookup as written yields an inherited non-strategy value exactly for the keys `Object.prototype` provides, and the registry's option for every other key |
| SortStrategy.AsWrittenToStringIsNoStrategy | src/features/restaurants/strategies/sort/RestaurantSortStrategy.ts:76-78 | the as-written lookup of "toString" finds the inherited function and not a strategy, where the corrected registry gives "best match" |
| SortFixtures.ReviewsFixture | src/features/restaurants/strategies/sort/RestaurantSortStrategy.test.ts:58-68 | the four-restaurant fixture sorted by reviews is 3, 1, 2, 4 |
| SortFixtures.EtaFixture | src/features/restaurants/strategies/sort/RestaurantSortStrategy.test.ts:70-80 | sorted by delivery time it is 2, 1, 3, 4 |
| SortFixtures.MinFixture | src/features/restaurants/strategies/sort/RestaurantSortStrategy.test.ts:82-92 | sorted by minimum order it is 4, 2, 1, 3 |
| SortFixtures.CostFixture | src/features/restaurants/strategies/sort/RestaurantSortStrategy.test.ts:94-104 | sorted by delivery cost it is 3, 4, 2, 1 |
| RestaurantUtils.ProcessRestaurants | src/features/restaurants/utils/restaurantUtils.ts:14-26 | the loop's result is the input passed through every filter in order and then sorted once by the given strategy |
| RestaurantUtils.FiltersApplyInOrder | src/features/restaurants/utils/restaurantUtils.ts:19-23 | adding one more filter applies it to the output of the earlier ones |
| RestaurantUtils.ApplyFilters | src/features/restaurants/utils/restaurantUtils.ts:19-23 | with search filters only, the filtered list is never longer than the input |
| RestaurantUtils.ApplyFiltersSplit | src/features/restaurants/utils/restaurantUtils.ts:19-23 | running all the filters is running the first k and then the rest on their output |
| RestaurantUtils.NoFiltersSortsInput | src/features/restaurants/utils/restaurantUtils.test.ts:111-120 | with no filters, the result is the sorted input |
| RestaurantUtils.EmptyFilterEmptiesResult | src/features/restaurants/utils/restaurantUtils.test.ts:161-179 | once a filter returns nothing, and the later ones keep nothing from nothing, the result is empty |
| RestaurantUtils.EmptyStaysEmpty | src/features/restaurants/utils/restaurantUtils.ts:19-23 | filters that map empty to empty keep an empty list empty |
| RestaurantUtils.SearchPipelineShrinks | src/features/restaurants/utils/restaurantUtils.ts:14-26 | with search filters only, the filtered list is a subsequence of the input; the sort is a permutation of it and no longer than the input |
| ListParams.ValidSortOptionsAreOptionNames | src/features/restaurants/hooks/list-state/useRestaurantListState.tsx:45-51 | the validation list holds exactly the five option names |
| ListParams.ReadSearchQuery | src/features/restaurants/hooks/list-state/useRestaurantListState.tsx:34 | `q` reads as its value when present and as "" when absent |
| ListParams.ReadPage | src/features/restaurants/hooks/list-state/useRestaurantListState.tsx:35 | the page read is never 0: an absent page, or one whose `Number` is NaN or 0, reads as 1, and any other number reads as itself |
| ListParams.ReadSort | src/features/restaurants/hooks/list-state/useRestaurantListState.tsx:36 | the sort read is never empty: an absent or empty `sort` reads "bestMatch", and any other value reads as itself, unchecked |
| ListParams.ReadFlag | src/features/restaurants/hooks/list-state/useRestaurantListState.tsx:37-39 | a facet is on exactly when its key holds "true" |
| ListParams.InvalidKeys | src/features/restaurants/hooks/list-state/useRestaurantListState.tsx:56-70 | the keys to delete are among `page` and `sort`; `page` is among them exactly when it is invalid, and likewise `sort` |
| ListParams.ParamsValid | src/features/restaurants/hooks/list-state/useRestaurantListState.tsx:56-74 | the params are valid exactly when validation would delete no key |
| ListParams.ValidParamsRead | src/features/restaurants/hooks/list-state/useRestaurantListState.tsx:34-39 | a query string that validation accepts reads back a positive integer page and one of the five sorts |
| ListParams.RemovingInvalidKeysIsValid | src/features/restaurants/hooks/list-state/useRestaurantListState.tsx:56-70 | deleting the keys validation rejects leaves a valid query string; nothing is deleted exactly when it was valid |
| ListParams.PageWriteReadsBack | src/features/restaurants/hooks/list-state/useRestaurantListState.tsx:35 | a page written as `String(n)` reads back as n (as 1 when n is 0) and is valid exactly when n > 0 |
| ListParams.PageResetReadsOne | src/features/restaurants/hooks/list-state/useRestaurantListState.tsx:84 | resetting the page to "1" reads back 1 and is valid |
| ListParams.WriteQuery | src/features/restaurants/hooks/list-state/useRestaurantListState.tsx:79-83 | `q` is present exactly when the query is non-empty, reads back as the query, and no other key changes |
| ListParams.WriteSort | src/features/restaurants/hooks/list-state/useRestaurantListState.tsx:97-101 | `sort` is present exactly when the option is not "best match"; it reads back the option's name, which the registry maps to the option; no other key changes |
| ListParams.WriteFlag | src/features/restaurants/hooks/list-state/useRestaurantListState.tsx:108-112 | a facet key is "true" when set and absent when cleared, reads back the flag, and no other key changes |
| RestaurantListState.Read | src/features/restaurants/hooks/list-state/useRestaurantListState.tsx:34-39 | an empty query string reads as query "", page 1, "bestMatch" and all facets off |
| RestaurantListState.Validate | src/features/restaurants/hooks/list-state/useRestaurantListState.tsx:42-75 | no update is made exactly when the params are valid; otherwise the update is the params minus the invalid `page`/`sort`, valid, with a positive integer page and a known sort |
| RestaurantListState.SetSearchQuery | src/features/restaurants/hooks/list-state/useRestaurantListState.tsx:77-87 | the query is written, the page becomes "1", the sort is removed (reads "bestMatch"), and every other key is kept |
| RestaurantListState.SetPage | src/features/restaurants/hooks/list-state/useRestaurantListState.tsx:89-93 | the page becomes `String(n)` and reads back as n; it stays valid exactly when n > 0; every other key is kept |
| RestaurantListState.SetSort | src/features/restaurants/hooks/list-state/useRestaurantListState.tsx:95-104 | the sort is written (removed for "best match") and maps back to the option, the page becomes "1", and every other key is kept |
| RestaurantListState.SetOpenNow | src/features/restaurants/hooks/list-state/useRestaurantListState.tsx:106-115 | the flag is written, the page becomes "1", and every other key is kept |
| RestaurantListState.SetIsNew | src/features/restaurants/hooks/list-state/useRestaurantListState.tsx:117-126 | the same for `isNew` |
| RestaurantListState.SetFreeDelivery | src/features/restaurants/hooks/list-state/useRestaurantListState.tsx:128-137 | the same for `freeDelivery` |
| RestaurantListState.UpdateQuery | src/features/restaurants/hooks/list-state/useRestaurantListState.tsx:142-148 | an absent update changes nothing; a given one is written as by `setSearchQuery`'s encoding; only `q` can change |
| RestaurantListState.UpdatePage | src/features/restaurants/hooks/list-state/useRestaurantListState.tsx:150-152 | an absent update changes nothing; a given one becomes `String(page)`; only `page` can change |
| RestaurantListState.UpdateSort | src/features/restaurants/hooks/list-state/useRestaurantListState.tsx:154-160 | an absent update changes nothing; a given one is written as by `setSort`'s encoding; only `sort` can change |
| RestaurantListState.UpdateFlag | src/features/restaurants/hooks/list-state/useRestaurantListState.tsx:162-184 | an absent update changes nothing; a given flag is "true" or removed; only that key can change |
| RestaurantListState.StepsFrame | src/features/restaurants/hooks/list-state/useRestaurantListState.tsx:139-187 | the six steps together change only the six list-state keys |
| RestaurantListState.StepsCarry | src/features/restaurants/hooks/list-state/useRestaurantListState.tsx:139-187 | each key keeps the value its own step gave it through the later steps |
| RestaurantListState.SetMultiple | src/features/restaurants/hooks/list-state/useRestaurantListState.tsx:139-187 | each given field is written with its own encoding; each absent field keeps its value; no page reset happens; keys outside the six are kept |
| LegacyRestaurantListState.Read | src/hooks/restaurant-list-state/useRestaurantListState.tsx:28-30 | the legacy reads of `q`, `page` and `sort` agree with the feature version's |
| LegacyRestaurantListState.SetMultiple | src/hooks/restaurant-list-state/useRestaurantListState.tsx:97-121 | for the three legacy fields, each given field is written and each absent one kept; nothing outside `q`, `page`, `sort` changes |
| LegacyRestaurantListState.EmptyUrlDefaults | src/hooks/restaurant-list-state/useRestaurantListState.test.tsx:12-20 | an empty URL reads query "", page 1, sort "bestMatch" |
| LegacyRestaurantListState.GivenParamsReadBack | src/hooks/restaurant-list-state/useRestaurantListState.test.tsx:22-30 | a URL holding a query, a positive page and a sort reads back those values and passes validation |
| LegacyRestaurantListState.NonNumericPageCleaned | src/hooks/restaurant-list-state/useRestaurantListState.test.tsx:157-163 | a page that starts with a letter (such as "invalid") is rejected and deleted |
| LegacyRestaurantListState.NonPositivePageCleaned | src/hooks/restaurant-list-state/useRestaurantListState.test.tsx:165-171 | a page of zero or below is rejected and deleted |
| LegacyRestaurantListState.InvalidSortCleaned | src/hooks/restaurant-list-state/useRestaurantListState.test.tsx:173-179 | an unknown sort is rejected and deleted |
| SearchParamState.ReadString | src/hooks/useSearchParamState.tsx:16-19 | an absent key and a present empty value both read the default, and a present non-empty value reads as itself |
| SearchParamState.WriteString | src/hooks/useSearchParamState.tsx:35-39 | the key is present exactly when the value is neither empty nor the default, holds the value, and no other key changes |
| SearchParamState.StringRoundTrip | src/hooks/useSearchParamState.tsx:16-45 | writing a value and reading it back gives the value, or the default when the value is "" |
| SearchParamState.StringWriteIdempotent | src/hooks/useSearchParamState.tsx:35-39 | writing the same value twice is writing it once |
| SearchParamState.StringWriteReadStable | src/hooks/useSearchParamState.tsx:22-26 | writing back what was read keeps the read value |
| SearchParamState.StringParamState.SetValue | src/hooks/useSearchParamState.tsx:28-45 | the local state becomes the value and the params become the written params |
| SearchParamState.StringParamState.Sync | src/hooks/useSearchParamState.tsx:22-26 | the effect re-reads the state from the params and leaves them unchanged |
| SearchParamState.StringParamState.Navigate | src/hooks/useSearchParamState.tsx:22-26 | a URL change followed by the effect leaves the state equal to the new URL's read value |
| SearchParamState.SetValueThenSync | src/hooks/useSearchParamState.tsx:22-45 | after a set, and the effect when the parameters changed, the state is the value, except that clearing a present key reads back the default (clearing an absent one leaves ""); only the one key changed |
| SearchParamState.ReadBool | src/hooks/useSearchParamState.tsx:59-63 | an absent key reads the default; a present one is true exactly when it is "true" |
| SearchParamState.WriteBool | src/hooks/useSearchParamState.tsx:81-85 | the key is present exactly when the value differs from the default, holds "true"/"false", and no other key changes |
| SearchParamState.BoolRoundTrip | src/hooks/useSearchParamState.tsx:59-91 | writing a flag and reading it back gives the flag |
| SearchParamState.BoolOtherTextIsFalse | src/hooks/useSearchParamState.tsx:61 | any present text other than "true" reads as false |
| SearchParamState.BooleanParamState.SetValue | src/hooks/useSearchParamState.tsx:74-91 | the state becomes the flag and the params the written params |
| SearchParamState.BooleanParamState.Sync | src/hooks/useSearchParamState.tsx:65-72 | the effect re-reads the state and leaves the params unchanged |
| SearchParamState.SetBoolThenSync | src/hooks/useSearchParamState.tsx:65-91 | after a set and the effect, the state is the flag and the key is present exactly when the flag differs from the default |
| SearchParamState.ReadNumber | src/hooks/useSearchParamState.tsx:105-110 | an absent key or a value that is not a number reads the default; otherwise the number |
| SearchParamState.WriteNumber | src/hooks/useSearchParamState.tsx:129-133 | the key is present exactly when the value differs from the default, holds `String(value)`, and no other key changes |
| SearchParamState.NumberRoundTrip | src/hooks/useSearchParamState.tsx:105-139 | writing an integer and reading it back gives that integer |
| SearchParamState.NumberParamState.SetValue | src/hooks/useSearchParamState.tsx:122-139 | the state becomes the value and the params the written params |
| SearchParamState.NumberParamState.Sync | src/hooks/useSearchParamState.tsx:112-120 | the effect re-reads the state and leaves the params unchanged |
| SearchParamState.SetNumberThenSync | src/hooks/useSearchParamState.tsx:112-139 | after a set and the effect, the state is the value |
| RestaurantProcessor.UseRestaurantProcessor | src/features/restaurants/hooks/processor/useRestaurantProcessor.tsx:8-50 | the processed list is the input filtered by the given strategies and sorted by the registry's strategy for the URL sort; the search query and the raw list, loading and error are passed through; "active filters" is set exactly when the query or a facet is set; the counts are the lengths of the raw and the processed lists |
| RestaurantProcessor.SearchOnlyCounts | src/features/restaurants/hooks/processor/useRestaurantProcessor.tsx:46-48 | with search filters only, the filtered count never exceeds the total and every processed restaurant comes from the input |
| RestaurantProcessor.DefaultViewIsUnchanged | src/features/restaurants/hooks/processor/useRestaurantProcessor.tsx:30-38 | with no `sort` in the URL and no filters, the processed list is the input in its order |
| RestaurantProcessor.EmptyUrlHasNoActiveFilter | src/features/restaurants/hooks/processor/useRestaurantProcessor.tsx:45 | an empty URL shows no active filter |
| RestaurantsSlice.Reduce | src/store/slices/restaurant/restaurantsSlice.ts:20-31 | start sets loading and clears the error but keeps the list; success stores the payload and stops loading; failure stores the message, stops loading and keeps the list; other actions change nothing |
| RestaurantsSlice.ReducePreservesConsistent | src/store/slices/restaurant/restaurantsSlice.ts:20-31 | no action leads to a state that is loading and holds an error |
| RestaurantsSlice.ReplayConsistent | src/store/slices/restaurant/restaurantsSlice.ts:10-31 | no sequence of actions leads to such a state |
| RestaurantsSlice.StartThenSuccess | src/store/slices/restaurant/restaurantsSlice.test.ts:169-188 | start then success gives the payload, not loading, no error |
| RestaurantsSlice.StartThenFailure | src/store/slices/restaurant/restaurantsSlice.test.ts:149-167 | start then failure keeps the old list, not loading, with the message |
| RestaurantsSlice.Draft.Dispatch | src/store/slices/restaurant/restaurantsSlice.ts:16-33 | the Immer draft's update equals the pure reducer and keeps consistency |
| RestaurantsSlice.Draft.FetchStart | src/store/slices/restaurant/restaurantsSlice.ts:20-23 | the draft update equals the reducer's start case |
| RestaurantsSlice.Draft.FetchSuccess | src/store/slices/restaurant/restaurantsSlice.ts:24-27 | the draft update equals the reducer's success case |
| RestaurantsSlice.Draft.FetchFailure | src/store/slices/restaurant/restaurantsSlice.ts:28-31 | the draft update equals the reducer's failure case |
| LegacyRestaurantsSlice.Reduce | src/store/slices/restaurantsSlice.ts:22-34 | as in the feature slice, and start also records its postcode |
| LegacyRestaurantsSlice.ReplaySnoc | src/store/slices/restaurantsSlice.ts:11-34 | replaying one more action applies it to the replayed state |
| LegacyRestaurantsSlice.PostcodeIsLastStarted | src/store/slices/restaurantsSlice.ts:22-26 | after any actions, the postcode is that of the last start, or the original when there was none |
| LegacyRestaurantsSlice.ReplayConsistent | src/store/slices/restaurantsSlice.ts:22-34 | no sequence of actions leads to loading with an error |
| LegacyRestaurantsSlice.Draft.Dispatch | src/store/slices/restaurantsSlice.ts:18-36 | the draft update equals the pure reducer |
| LegacyRestaurantsSlice.Draft.FetchStart | src/store/slices/restaurantsSlice.ts:22-26 | the draft update equals the reducer's start case: loading, no error, the new postcode |
| LegacyRestaurantsSlice.Draft.FetchSuccess | src/store/slices/restaurantsSlice.ts:27-30 | the draft update equals the reducer's success case: not loading, the payload stored |
| LegacyRestaurantsSlice.Draft.FetchFailure | src/store/slices/restaurantsSlice.ts:31-34 | the draft update equals the reducer's failure case: not loading, the message stored |
| UserSlice.Reduce | src/store/slices/userSlice.ts:15-17 | `setPostcode` stores its payload, and other actions change nothing |
| UserSlice.OtherActionsKeepPostcode | src/store/slices/userSlice.ts:11-19 | actions other than `setPostcode` leave the state unchanged |
| UserSlice.SetTwice | src/store/slices/user/userSlice.test.ts:38-48 | the last postcode set wins |
| UserSlice.Draft.SetPostcodeAction | src/store/slices/userSlice.ts:15-17 | the draft update equals the reducer |
| CounterSlice.Reduce | src/store/slices/counterSlice.ts:15-20 | `increment` adds one; `incrementAsync` leaves the state to the saga |
| CounterSlice.ReplayCounts | src/store/slices/counterSlice.ts:7-20 | the counter after any actions is the start value plus the number of increments |
| CounterSlice.Draft.IncrementAction | src/store/slices/counterSlice.ts:15-17 | the draft update equals the reducer |
| CounterSlice.Draft.IncrementAsyncAction | src/store/slices/counterSlice.ts:18-20 | the draft is left as the reducer leaves it for `incrementAsync`: unchanged |
| ModalState.Modal.Open | src/hooks/modal-state/useModalState.tsx:13 | `open` makes the modal open |
| ModalState.Modal.Close | src/hooks/modal-state/useModalState.tsx:14 | `close` makes it closed |
| ModalState.Modal.Toggle | src/hooks/modal-state/useModalState.tsx:15 | `toggle` negates the state |
| ModalState.ToggleTwice | src/hooks/modal-state/useModalState.test.tsx:37-51 | toggling twice returns to the start |
| ModalState.OpenCloseSequence | src/hooks/modal-state/useModalState.test.tsx:17-51 | from closed, toggle opens and close closes |
| Pagination.Range | src/components/ui/pagination/Pagination.tsx:37-41 | the pages a..b, one item per page, in order |
| Pagination.InitialStart | src/components/ui/pagination/Pagination.tsx:44 | the first start is at least 1 and at least current - floor(max / 2), and is one of the two |
| Pagination.WindowEnd | src/components/ui/pagination/Pagination.tsx:45 | the end is at most the total and at most start + max - 1, and equals one of them |
| Pagination.WindowStart | src/components/ui/pagination/Pagination.tsx:47-50 | the adjusted start is at least 1 and not after the first start, and moves back only when the first window was short |
| Pagination.Head | src/components/ui/pagination/Pagination.tsx:52-58 | nothing when the window starts at page 1; otherwise page 1, followed by an ellipsis exactly when the window starts after page 2 |
| Pagination.Tail | src/components/ui/pagination/Pagination.tsx:65-71 | nothing when the window ends at the last page; otherwise the last page, preceded by an ellipsis exactly when the window ends before the second-last page |
| Pagination.VisiblePages | src/components/ui/pagination/Pagination.tsx:34-75 | when the pages fit, one entry per page; otherwise at most max + 4 entries (the window plus first page, last page and two ellipses) |
| Pagination.PushRange | src/components/ui/pagination/Pagination.tsx:61-63 | the loop appends exactly the pages a..b, in order, to the list built so far |
| Pagination.GetVisiblePages | src/components/ui/pagination/Pagination.tsx:34-75 | the loop builds exactly the visible-page list: every page when they fit, otherwise the first page and an ellipsis when the window starts past page 2, the window, and an ellipsis and the last page when it ends before the second-last page |
| Pagination.AllPagesShown | src/components/ui/pagination/Pagination.tsx:37-41 | when the pages fit, the list is pages 1 to the total |
| Pagination.WindowBounds | src/components/ui/pagination/Pagination.tsx:44-50 | otherwise the window lies within 1..total and has exactly the maximum number of pages |
| Pagination.VisiblePagesWellFormed | src/components/ui/pagination/Pagination.tsx:34-75 | the first and last pages are shown, neighbouring pages are consecutive, and each ellipsis stands between pages with a gap |
| Pagination.WindowedConsecutive | src/components/ui/pagination/Pagination.tsx:53-71 | in a windowed list, adjacent page items are consecutive numbers |
| Pagination.WindowedEllipses | src/components/ui/pagination/Pagination.tsx:53-71 | in a windowed list, each ellipsis lies between two pages with at least one page missing between them |
| Pagination.WellFormedIncreasing | src/components/ui/pagination/Pagination.tsx:34-75 | the page numbers of a well-formed list strictly increase |
| Pagination.VisiblePagesInRange | src/components/ui/pagination/Pagination.tsx:34-75 | every page number shown lies within 1..total |
| Pagination.VisiblePagesShowCurrent | src/components/ui/pagination/Pagination.tsx:34-75 | when the current page is within 1..total, it is among the visible pages |
| Pagination.HandlePrevious | src/components/ui/pagination/Pagination.tsx:22-26 | "previous" requests a page exactly when the current page is above 1, and requests current - 1 |
| Pagination.HandleNext | src/components/ui/pagination/Pagination.tsx:28-32 | "next" requests a page exactly when the current page is below the total, and requests current + 1 |
| Pagination.HandlersStayInRange | src/components/ui/pagination/Pagination.tsx:22-32 | from a page in range, both handlers request pages in range |
| Pagination.ViewItems | src/components/ui/pagination/Pagination.tsx:94-123 | one rendered item per visible page, in order |
| Pagination.Render | src/components/ui/pagination/Pagination.tsx:20-131 | nothing is rendered exactly when there is at most one page; "previous" is disabled exactly on page 1, "next" exactly on the last page; the numbers appear only when enabled, and then they are the visible pages in order, each with its own view (the current page active) |
| Pagination.DisabledButtonsDoNothing | src/components/ui/pagination/Pagination.tsx:22-32 | a disabled button's handler requests nothing |
| Pagination.OneActiveButton | src/components/ui/pagination/Pagination.tsx:107 | with the numbers shown, exactly one item is active, and it is the current page |
| RestaurantList.TotalPages | src/features/restaurants/components/list/RestaurantList.tsx:22 | `ceil(length / itemsPerPage)`: the least page count that holds the list |
| RestaurantList.RelativeIndex | src/features/restaurants/components/list/RestaurantList.tsx:25 | a slice index is made non-negative by counting from the end, and clamped to the length |
| RestaurantList.JsSlice | src/features/restaurants/components/list/RestaurantList.tsx:25 | `slice` is never longer than the list |
| RestaurantList.StartIndex | src/features/restaurants/components/list/RestaurantList.tsx:23 | from page 1 on, the start index is never negative |
| RestaurantList.EndIndex | src/features/restaurants/components/list/RestaurantList.tsx:24 | the end index is page * itemsPerPage |
| RestaurantList.CurrentPage | src/features/restaurants/components/list/RestaurantList.tsx:25 | the current page is never longer than the list |
| RestaurantList.SliceNonNegative | src/features/restaurants/components/list/RestaurantList.tsx:25 | for non-negative bounds, `slice` is the clamped subsequence |
| RestaurantList.CurrentPageContents | src/features/restaurants/components/list/RestaurantList.tsx:23-25 | from page 1 on, the shown restaurants are the items from `(page-1)*perPage` to `page*perPage`, clamped to the list |
| RestaurantList.PagesUpToPrefix | src/features/restaurants/components/list/RestaurantList.tsx:22-25 | the first k pages together are the list's first k*perPage items |
| RestaurantList.AllPagesCoverList | src/features/restaurants/components/list/RestaurantList.tsx:22-25 | all pages together are the whole list, each item once and in order |
| RestaurantList.Label | src/features/restaurants/components/list/RestaurantList.tsx:27-29 | the "Showing x-y of n" label exists exactly when the list is non-empty, with the total and the plural form |
| RestaurantList.LabelMatchesPage | src/features/restaurants/components/list/RestaurantList.tsx:23-29 | for a non-empty page the label starts at startIndex + 1, ends at its last item's position (min(endIndex, length)), and the page is exactly the list items between the two |
| RestaurantList.ResetRequest | src/features/restaurants/components/list/RestaurantList.tsx:31-35 | a reset to page 1 is requested exactly when there are pages, the current page is beyond them, and there is a handler |
| RestaurantList.ResetLeadsToFirstPage | src/features/restaurants/components/list/RestaurantList.tsx:31-35 | when a reset is requested, the current page shows nothing and page 1 does |
| RestaurantList.Render | src/features/restaurants/components/list/RestaurantList.tsx:17-64 | the view shows the current page's slice and label; the control is shown exactly when there is a handler, the page is non-empty and there is more than one page, and it is the pagination view for the current page, the page count and a window of 5; it requests the reset |
| RestaurantList.NonEmptyPageIsInRange | src/features/restaurants/components/list/RestaurantList.tsx:22-25 | a page that shows something is within the page count |
| RestaurantList.DefaultsShowFirstTwelve | src/features/restaurants/components/list/RestaurantList.tsx:17-18 | by default the first twelve restaurants are shown |
| LegacyRestaurantList.Render | src/components/restaurant/list/RestaurantList.tsx:16-41 | the view shows the current page's slice, and the control is shown exactly when there is a handler and more than one page, and it is then the pagination control for the current page, the page count, page numbers shown and a window of 5 |
| LegacyRestaurantList.ControlShownOnEmptyPage | src/components/restaurant/list/RestaurantList.tsx:35-41 | unlike the feature version, a page beyond the last shows no restaurants but still shows the control |
| ClassNames.Cn | src/utils/class-names/classNames.ts:6-26 | the loops produce the argument names joined by single spaces |
| ClassNames.Classes | src/utils/class-names/classNames.ts:11-23 | falsy arguments alone give no names |
| ClassNames.TruthyKeysMembers | src/utils/class-names/classNames.ts:16-20 | an object contributes a key exactly when some entry with that key has a truthy value |
| ClassNames.ArgClassesMembers | src/utils/class-names/classNames.ts:11-23 | an argument contributes a name exactly when it is that non-empty string, or an object with that key truthy |
| ClassNames.ClassesMembers | src/utils/class-names/classNames.ts:11-23 | a name is in the result exactly when some argument contributes it; booleans, `null`, `undefined` and "" never do |
| ClassNames.ClassesAppend | src/utils/class-names/clessNames.test.ts:16-20 | names keep argument order: the names of `a` followed by `b` are those of `a` followed by those of `b` |
| ClassNames.SkipsFalsyArguments | src/utils/class-names/clessNames.test.ts:8-10 | falsy arguments are skipped: the strings "a" and "b" around false, undefined, null and "" give "a b" |
| LegacyClassNames.Kept | src/utils/classNames.ts:7 | `filter(Boolean)` keeps no empty text, and keeps nothing when no argument is truthy |
| LegacyClassNames.Cn | src/utils/classNames.ts:6-8 | with no truthy argument the class string is "" |
| LegacyClassNames.AgreesWithoutTrue | src/utils/classNames.ts:6-8 | without a `true` argument the legacy helper gives the same string as the new one on strings and booleans |
| LegacyClassNames.KeptAgrees | src/utils/classNames.ts:7 | without a `true` argument, the kept names are those the new helper produces |
| LegacyClassNames.TrueBecomesAClass | src/utils/classNames.ts:7 | `cn("btn", true)` gives "btn true" in the legacy helper and "btn" in the new one |
| JsNumber.IntRoundTrip | src/features/restaurants/hooks/list-state/useRestaurantListState.tsx:91 | `Number(String(n))` is n for every integer n |
| JsNumber.ToNumber | src/features/restaurants/hooks/list-state/useRestaurantListState.tsx:35 | `Number` of a blank string is 0, and only a leading minus sign gives a negative number |
| JsNumber.LetterStartIsNaN | src/features/restaurants/hooks/list-state/useRestaurantListState.tsx:57 | `Number(s)` is NaN for a string that starts with a letter |
| JsText.TrimEmptyIffBlank | src/features/restaurants/strategies/filter/RestaurantFilterStrategy.ts:15 | `trim()` gives "" exactly when every character is whitespace |
| JsText.IncludesIffOccurs | src/features/restaurants/strategies/filter/RestaurantFilterStrategy.ts:23 | `includes` holds exactly when the query occurs at some position |

## Left out

- The sagas, the API client and the store wiring (`store.ts`, `rootSaga`) make network calls and run concurrently, so they are not part of this model. The saga's effect on state is only the reducer actions it dispatches, and those are modelled.
- React rendering, effects' timing and `useMemo`: each hook is modelled as the value it returns for a given URL. `useEffect` bodies are separate methods (`Validate`, `Sync`).
- ModalState.Modal.Toggle: each call negates the state at once. In React, `setIsOpen(!isOpen)` reads the value of the last render, so two toggles in one handler before a re-render leave the modal toggled once; ModalState.ToggleTwice holds only across renders.
- The facet filters (`openNow`, `isNew`, `freeDelivery`) and the filter registry that builds the strategy list are not among the core's source files. The filters are parameters: `Filter.External` stands for any strategy given as a function on lists.
- `toLowerCase` and `trim` are modelled for ASCII letters and the JavaScript whitespace set. Unicode case mapping beyond ASCII is not modelled.
- `Number(s)` is modelled for decimal integers, decimals with one point, a sign and surrounding whitespace. Exponents, hexadecimal, "Infinity" and numeric separators are not modelled; they parse as NaN here.
- SearchParamState.SetValueThenSync: the effect runs exactly when the parameters differ as a map of keys to values. The router keeps the same `searchParams` object only when the query string is the same, and key order and percent-encoding are not modelled.
- SearchParamState.NumberParamState.SetValue: takes an integer, because `String(x)` of a fractional or huge number (exponent form) is not modelled.
- RestaurantList.TotalPages: requires `itemsPerPage >= 1`; the prop is a positive default (12) in every use and 0 would divide by zero in the source.
- RestaurantList.Render: requires `itemsPerPage >= 1` for the same reason, and the control's `maxVisiblePages` is the component's default 5.
- LegacyRestaurantList.Render: requires `itemsPerPage >= 1` for the same reason.
- RestaurantListState.SetPage: takes an integer page. The source's page is a JavaScript number, so `setPage(2.5)` writes "2.5", which validation then deletes; fractional pages and double precision (integers beyond 2^53, exponent forms such as "1e+21") are not modelled.
- RestaurantListState.UpdatePage: the same integer-only page as `SetPage`, for `setMultiple`.
- Pagination.Render: the current and total pages are exact integers. `?page=1.5` reads as 1.5 and reaches the control before the validation effect deletes it; for such a page no button would be active. Double precision is not modelled.
- Pagination.GetVisiblePages: the same integer pages as `Render`; a fractional current page would give fractional window bounds in the source.
- RestaurantList.Render: the current page is an exact integer. A fractional page read from the URL reaches the list before validation and would give a fractional slice start; double precision is not modelled.
- JsNumber.IntRoundTrip: stated for exact integers. `String` of a fractional number or of a number beyond 2^53 or 1e21 (exponent form) is not modelled.
- The order of keys and repeated keys in a query string: a query string is a map from key to one value.
- `Object.entries` order for `cn` objects is the order of the modelled entry list.
- SortStrategy.Sort: the stability of `Array.prototype.sort` (equal elements keep their input order) is not stated. The fixtures fix the order for the source's test data.
- Immutability of the reducers' old state and of the input arrays is automatic for Dafny values and is not stated as a lemma.
- The read `sort` value is not validated when read (only the effect deletes a bad one). `Read` returns the raw string, as the code does. The processor looks it up with the corrected registry `SortStrategy.GetStrategy`, which maps every unknown string to "best match"; the lookup as written differs on inherited keys (see the Findings row).
- The legacy restaurants slice stores the feature `Restaurant` type. Its own model (`src/models/Restaurant.model.ts`) has fewer fields, all of them mandatory. The slice only stores and replaces the list, so the difference does not matter here.

## Findings

| source | as written | input that shows it | evidently intended | confidence | as-written member | corrected member |
|---|---|---|---|---|---|---|
| src/features/restaurants/strategies/sort/RestaurantSortStrategy.ts:76-78 | `getStrategy` indexes a plain object literal and falls back to "best match" only when the result is falsy, so keys inherited from `Object.prototype` return a value that is not a strategy (a function, or `Object.prototype` itself for `__proto__`) | sort key "toString" (for example `?sort=toString`, read without validation) | every key that is not one of the five option names falls back to "best match" | not executed | SortStrategy.AsWrittenToStringIsNoStrategy | SortStrategy.GetStrategy |
