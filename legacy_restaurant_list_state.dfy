/**
 * `useRestaurantListState` (the earlier version): only `q`, `page` and
 * `sort`. Its validation pass and its `setSearchQuery`, `setPage` and
 * `setSort` are the same statements as the feature version's and are
 * modelled by `RestaurantListState.Validate`, `SetSearchQuery`, `SetPage` and
 * `SetSort`; its `setMultiple` takes three fields.
 */
module LegacyRestaurantListState {
  import opened Wrappers
  import opened JsNumber
  import opened SearchParams
  import opened ListParams
  import opened SortStrategy
  import RestaurantListState

  /** The state this version returns. */
  datatype LegacyState = LegacyState(searchQuery: string, page: real, sort: string)

  function Read(p: Params): (s: LegacyState)
    ensures s.searchQuery == RestaurantListState.Read(p).searchQuery
    ensures s.page == RestaurantListState.Read(p).page
    ensures s.sort == RestaurantListState.Read(p).sort
  {
    LegacyState(ReadSearchQuery(p), ReadPage(p), ReadSort(p))
  }

  /** `Partial<RestaurantListState>` of this version. */
  datatype LegacyUpdates = LegacyUpdates(searchQuery: Option<string>, page: Option<int>, sort: Option<SortOption>)

  /** `setMultiple` with three fields: given fields written, `page` not reset. */
  method SetMultiple(searchParams: Params, updates: LegacyUpdates) returns (newParams: Params)
    ensures updates.searchQuery.None? ==> KeyUnchanged(newParams, searchParams, QueryKey)
    ensures updates.searchQuery.Some? ==>
      (QueryKey in newParams <==> updates.searchQuery.value != "") &&
      ReadSearchQuery(newParams) == updates.searchQuery.value
    ensures updates.page.None? ==> KeyUnchanged(newParams, searchParams, PageKey)
    ensures updates.page.Some? ==> Get(newParams, PageKey) == Some(IntToString(updates.page.value))
    ensures updates.sort.None? ==> KeyUnchanged(newParams, searchParams, SortKey)
    ensures updates.sort.Some? ==>
      (SortKey in newParams <==> updates.sort.value != BestMatch) &&
      ReadSort(newParams) == Name(updates.sort.value)
    ensures SameExcept(newParams, searchParams, {QueryKey, PageKey, SortKey})
  {
    var p1 := RestaurantListState.UpdateQuery(searchParams, updates.searchQuery);
    var p2 := RestaurantListState.UpdatePage(p1, updates.page);
    newParams := RestaurantListState.UpdateSort(p2, updates.sort);
    assert KeyUnchanged(p2, p1, QueryKey) && KeyUnchanged(newParams, p2, QueryKey);
    assert KeyUnchanged(p1, searchParams, PageKey) && KeyUnchanged(newParams, p2, PageKey);
    assert KeyUnchanged(p1, searchParams, SortKey) && KeyUnchanged(p2, p1, SortKey);
    SameExceptTrans(searchParams, p1, p2, {QueryKey}, {PageKey});
    SameExceptTrans(searchParams, p2, newParams, {QueryKey, PageKey}, {SortKey});
  }

  /** With no query string the hook reads "", page 1 and "bestMatch". */
  lemma EmptyUrlDefaults()
    ensures Read(map[]) == LegacyState("", 1.0, "bestMatch")
  {
  }

  /**
   * A query string such as `?q=pizza&page=2&sort=reviews` reads back as
   * given and passes validation.
   */
  lemma GivenParamsReadBack(q: string, n: int, o: SortOption)
    requires q != "" && n > 0 && o != BestMatch
    ensures var p := map[QueryKey := q, SortKey := Name(o)][PageKey := IntToString(n)];
      Read(p) == LegacyState(q, n as real, Name(o)) && ParamsValid(p)
  {
    var p0 := map[QueryKey := q, SortKey := Name(o)];
    var p := p0[PageKey := IntToString(n)];
    PageWriteReadsBack(p0, n);
    assert p[QueryKey] == q && p[SortKey] == Name(o);
    assert ReadSearchQuery(p) == q;
    NameInNames(o);
    ValidSortOptionsAreOptionNames(Name(o));
    assert SortParamValid(p);
    assert ReadSort(p) == Name(o);
  }

  /** A `page` of zero or below, such as `?page=-5`, is deleted by validation. */
  lemma NonPositivePageCleaned(n: int)
    requires n <= 0
    ensures !PageParamValid(map[PageKey := IntToString(n)])
    ensures var p := map[PageKey := IntToString(n)]; p - InvalidKeys(p) == map[]
  {
    var p: Params := map[];
    PageWriteReadsBack(p, n);
    assert p[PageKey := IntToString(n)] == map[PageKey := IntToString(n)];
  }

  /** `?sort=invalidSort` is corrected by deleting `sort`, which then reads as "bestMatch". */
  lemma InvalidSortCleaned()
    ensures !SortParamValid(map[SortKey := "invalidSort"])
    ensures map[SortKey := "invalidSort"] - InvalidKeys(map[SortKey := "invalidSort"]) == map[]
  {
    assert PageKey != SortKey;
  }

  /** A non-numeric `page`, such as `?page=invalid`, is deleted by validation. */
  lemma NonNumericPageCleaned(s: string)
    requires s != [] && 'a' <= s[0] <= 'z'
    ensures !PageParamValid(map[PageKey := s])
    ensures map[PageKey := s] - InvalidKeys(map[PageKey := s]) == map[]
  {
    LetterStartIsNaN(s);
  }
}
