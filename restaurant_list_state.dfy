/**
 * `useRestaurantListState` (the feature version): the list selection state
 * read from the query string, the validation pass run on every change of the
 * query string, and the setters. Each setter copies the current parameters,
 * applies `set`/`delete` step by step and hands the copy to `setSearchParams`;
 * here the copy is a local map that the method returns.
 */
module RestaurantListState {
  import opened Wrappers
  import opened JsNumber
  import opened SearchParams
  import opened ListParams
  import opened SortStrategy

  /** The state the hook returns. `sort` is the raw string read from the URL. */
  datatype ListState = ListState(
    searchQuery: string,
    page: real,
    sort: string,
    openNow: bool,
    isNew: bool,
    freeDelivery: bool)

  /** The reads at the top of the hook. */
  function Read(p: Params): (s: ListState)
    ensures p == map[] ==> s == ListState("", 1.0, "bestMatch", false, false, false)
  {
    ListState(ReadSearchQuery(p), ReadPage(p), ReadSort(p),
              ReadFlag(p, OpenNowKey), ReadFlag(p, IsNewKey), ReadFlag(p, FreeDeliveryKey))
  }

  /**
   * The validation effect. It deletes a `page` that is not a positive integer
   * and a `sort` that is not one of the options, and returns the parameters to
   * write only when it corrected something.
   */
  method Validate(searchParams: Params) returns (update: Option<Params>)
    ensures update.None? <==> ParamsValid(searchParams)
    ensures var after := if update.Some? then update.value else searchParams;
      after == searchParams - InvalidKeys(searchParams) &&
      ParamsValid(after) &&
      IsPositiveInteger(Read(after).page) && Read(after).sort in ValidSortOptions
  {
    var currentPageParam := Get(searchParams, PageKey);
    var currentSortParam := Get(searchParams, SortKey);
    var needsUpdate := false;
    var newParams := searchParams;

    if currentPageParam.Some? {
      var pageNumber := ToNumber(currentPageParam.value);
      if !IsInteger(pageNumber) || pageNumber.value <= 0.0 {
        newParams := newParams - {PageKey};
        needsUpdate := true;
      }
    }

    if currentSortParam.Some? && currentSortParam.value !in ValidSortOptions {
      newParams := newParams - {SortKey};
      needsUpdate := true;
    }

    if needsUpdate {
      update := Some(newParams);
    } else {
      update := None;
    }
    RemovingInvalidKeysIsValid(searchParams);
    ValidParamsRead(searchParams - InvalidKeys(searchParams));
  }

  /** `setSearchQuery`: write or clear `q`, reset `page` to 1 and clear `sort`. */
  method SetSearchQuery(searchParams: Params, query: string) returns (newParams: Params)
    ensures QueryKey in newParams <==> query != ""
    ensures ReadSearchQuery(newParams) == query
    ensures Get(newParams, PageKey) == Some("1")
    ensures SortKey !in newParams && ReadSort(newParams) == "bestMatch"
    ensures SameExcept(newParams, searchParams, {QueryKey, PageKey, SortKey})
  {
    newParams := WriteQuery(searchParams, query);
    newParams := newParams[PageKey := "1"];
    newParams := newParams - {SortKey};
  }

  /** `setPage`: write `String(pageNumber)` and nothing else. */
  method SetPage(searchParams: Params, pageNumber: int) returns (newParams: Params)
    ensures Get(newParams, PageKey) == Some(IntToString(pageNumber))
    ensures SameExcept(newParams, searchParams, {PageKey})
    ensures ReadPage(newParams) == if pageNumber == 0 then 1.0 else pageNumber as real
    ensures PageParamValid(newParams) <==> pageNumber > 0
  {
    newParams := searchParams;
    newParams := newParams[PageKey := IntToString(pageNumber)];
    PageWriteReadsBack(searchParams, pageNumber);
  }

  /** `setSort`: write or clear `sort` and reset `page` to 1. */
  method SetSort(searchParams: Params, sortOption: SortOption) returns (newParams: Params)
    ensures SortKey in newParams <==> sortOption != BestMatch
    ensures ReadSort(newParams) == Name(sortOption) && GetStrategy(ReadSort(newParams)) == sortOption
    ensures Get(newParams, PageKey) == Some("1")
    ensures SameExcept(newParams, searchParams, {SortKey, PageKey})
  {
    newParams := WriteSort(searchParams, sortOption);
    newParams := newParams[PageKey := "1"];
  }

  /**
   * What a facet setter leaves: the flag written as "true" or deleted, so that
   * it reads back as `value`, and `page` reset to 1.
   */
  ghost predicate FacetSet(before: Params, after: Params, key: string, value: bool) {
    (key in after <==> value) && ReadFlag(after, key) == value
    && Get(after, PageKey) == Some("1")
    && SameExcept(after, before, {key, PageKey})
  }

  /** `setOpenNow`. */
  method SetOpenNow(searchParams: Params, openNow: bool) returns (newParams: Params)
    ensures FacetSet(searchParams, newParams, OpenNowKey, openNow)
  {
    newParams := WriteFlag(searchParams, OpenNowKey, openNow);
    newParams := newParams[PageKey := "1"];
  }

  /** `setIsNew`. */
  method SetIsNew(searchParams: Params, isNew: bool) returns (newParams: Params)
    ensures FacetSet(searchParams, newParams, IsNewKey, isNew)
  {
    newParams := WriteFlag(searchParams, IsNewKey, isNew);
    newParams := newParams[PageKey := "1"];
  }

  /** `setFreeDelivery`. */
  method SetFreeDelivery(searchParams: Params, freeDelivery: bool) returns (newParams: Params)
    ensures FacetSet(searchParams, newParams, FreeDeliveryKey, freeDelivery)
  {
    newParams := WriteFlag(searchParams, FreeDeliveryKey, freeDelivery);
    newParams := newParams[PageKey := "1"];
  }

  /** `Partial<RestaurantListState>`: the fields given to `setMultiple`. */
  datatype Updates = Updates(
    searchQuery: Option<string>,
    page: Option<int>,
    sort: Option<SortOption>,
    openNow: Option<bool>,
    isNew: Option<bool>,
    freeDelivery: Option<bool>)

  /** A flag field of `setMultiple`: absent leaves the key, present writes "true" or deletes. */
  ghost predicate FlagUpdated(before: Params, after: Params, key: string, update: Option<bool>) {
    if update.None? then KeyUnchanged(after, before, key)
    else (key in after <==> update.value) && ReadFlag(after, key) == update.value
  }

  /** One field of `setMultiple`: written with `WriteQuery` when given. */
  method UpdateQuery(p: Params, u: Option<string>) returns (q: Params)
    ensures u.None? ==> q == p
    ensures u.Some? ==> (QueryKey in q <==> u.value != "") && ReadSearchQuery(q) == u.value
    ensures SameExcept(q, p, {QueryKey})
  {
    q := p;
    if u.Some? {
      q := WriteQuery(p, u.value);
    }
  }

  /** One field of `setMultiple`: `page` set to `String(page)` when given. */
  method UpdatePage(p: Params, u: Option<int>) returns (q: Params)
    ensures u.None? ==> q == p
    ensures u.Some? ==> Get(q, PageKey) == Some(IntToString(u.value))
    ensures SameExcept(q, p, {PageKey})
  {
    q := p;
    if u.Some? {
      q := p[PageKey := IntToString(u.value)];
    }
  }

  /** One field of `setMultiple`: written with `WriteSort` when given. */
  method UpdateSort(p: Params, u: Option<SortOption>) returns (q: Params)
    ensures u.None? ==> q == p
    ensures u.Some? ==> (SortKey in q <==> u.value != BestMatch) && ReadSort(q) == Name(u.value)
    ensures SameExcept(q, p, {SortKey})
  {
    q := p;
    if u.Some? {
      q := WriteSort(p, u.value);
    }
  }

  /** One flag of `setMultiple`: written with `WriteFlag` when given. */
  method UpdateFlag(p: Params, key: string, u: Option<bool>) returns (q: Params)
    ensures FlagUpdated(p, q, key, u)
    ensures u.None? ==> q == p
    ensures SameExcept(q, p, {key})
  {
    q := p;
    if u.Some? {
      q := WriteFlag(p, key, u.value);
    }
  }

  /** Six steps that each touch one key change nothing outside those keys. */
  lemma StepsFrame(p0: Params, p1: Params, p2: Params, p3: Params, p4: Params, p5: Params, p6: Params)
    requires SameExcept(p1, p0, {QueryKey}) && SameExcept(p2, p1, {PageKey}) && SameExcept(p3, p2, {SortKey})
    requires SameExcept(p4, p3, {OpenNowKey}) && SameExcept(p5, p4, {IsNewKey}) && SameExcept(p6, p5, {FreeDeliveryKey})
    ensures SameExcept(p6, p0, {QueryKey, PageKey, SortKey, OpenNowKey, IsNewKey, FreeDeliveryKey})
  {
    SameExceptTrans(p0, p1, p2, {QueryKey}, {PageKey});
    SameExceptTrans(p0, p2, p3, {QueryKey, PageKey}, {SortKey});
    SameExceptTrans(p0, p3, p4, {QueryKey, PageKey, SortKey}, {OpenNowKey});
    SameExceptTrans(p0, p4, p5, {QueryKey, PageKey, SortKey, OpenNowKey}, {IsNewKey});
    SameExceptTrans(p0, p5, p6, {QueryKey, PageKey, SortKey, OpenNowKey, IsNewKey}, {FreeDeliveryKey});
  }

  /** The key a step writes is carried unchanged through the other steps. */
  lemma StepsCarry(p0: Params, p1: Params, p2: Params, p3: Params, p4: Params, p5: Params, p6: Params)
    requires SameExcept(p1, p0, {QueryKey}) && SameExcept(p2, p1, {PageKey}) && SameExcept(p3, p2, {SortKey})
    requires SameExcept(p4, p3, {OpenNowKey}) && SameExcept(p5, p4, {IsNewKey}) && SameExcept(p6, p5, {FreeDeliveryKey})
    ensures KeyUnchanged(p6, p1, QueryKey)
    ensures KeyUnchanged(p1, p0, PageKey) && KeyUnchanged(p6, p2, PageKey)
    ensures KeyUnchanged(p2, p0, SortKey) && KeyUnchanged(p6, p3, SortKey)
    ensures KeyUnchanged(p3, p0, OpenNowKey) && KeyUnchanged(p6, p4, OpenNowKey)
    ensures KeyUnchanged(p4, p0, IsNewKey) && KeyUnchanged(p6, p5, IsNewKey)
    ensures KeyUnchanged(p5, p0, FreeDeliveryKey)
  {
    assert KeyUnchanged(p2, p1, QueryKey) && KeyUnchanged(p3, p2, QueryKey) && KeyUnchanged(p4, p3, QueryKey)
      && KeyUnchanged(p5, p4, QueryKey) && KeyUnchanged(p6, p5, QueryKey);
    assert KeyUnchanged(p1, p0, PageKey) && KeyUnchanged(p3, p2, PageKey) && KeyUnchanged(p4, p3, PageKey)
      && KeyUnchanged(p5, p4, PageKey) && KeyUnchanged(p6, p5, PageKey);
    assert KeyUnchanged(p1, p0, SortKey) && KeyUnchanged(p2, p1, SortKey) && KeyUnchanged(p4, p3, SortKey)
      && KeyUnchanged(p5, p4, SortKey) && KeyUnchanged(p6, p5, SortKey);
    assert KeyUnchanged(p1, p0, OpenNowKey) && KeyUnchanged(p2, p1, OpenNowKey) && KeyUnchanged(p3, p2, OpenNowKey)
      && KeyUnchanged(p5, p4, OpenNowKey) && KeyUnchanged(p6, p5, OpenNowKey);
    assert KeyUnchanged(p1, p0, IsNewKey) && KeyUnchanged(p2, p1, IsNewKey) && KeyUnchanged(p3, p2, IsNewKey)
      && KeyUnchanged(p4, p3, IsNewKey) && KeyUnchanged(p6, p5, IsNewKey);
    assert KeyUnchanged(p1, p0, FreeDeliveryKey) && KeyUnchanged(p2, p1, FreeDeliveryKey)
      && KeyUnchanged(p3, p2, FreeDeliveryKey) && KeyUnchanged(p4, p3, FreeDeliveryKey) && KeyUnchanged(p5, p4, FreeDeliveryKey);
  }

  /**
   * `setMultiple`: each given field is written with its setter's encoding, the
   * others are left as they are; `page` is not reset and `sort` not cleared.
   */
  method SetMultiple(searchParams: Params, updates: Updates) returns (newParams: Params)
    ensures updates.searchQuery.None? ==> KeyUnchanged(newParams, searchParams, QueryKey)
    ensures updates.searchQuery.Some? ==>
      (QueryKey in newParams <==> updates.searchQuery.value != "") &&
      ReadSearchQuery(newParams) == updates.searchQuery.value
    ensures updates.page.None? ==> KeyUnchanged(newParams, searchParams, PageKey)
    ensures updates.page.Some? ==> Get(newParams, PageKey) == Some(IntToString(updates.page.value))
    ensures updates.sort.None? ==> KeyUnchanged(newParams, searchParams, SortKey)
    ensures updates.sort.Some? ==>
      (SortKey in newParams <==> updates.sort.value != BestMatch) &&
      ReadSort(newParams) == Name(updates.sort.value)
    ensures FlagUpdated(searchParams, newParams, OpenNowKey, updates.openNow)
    ensures FlagUpdated(searchParams, newParams, IsNewKey, updates.isNew)
    ensures FlagUpdated(searchParams, newParams, FreeDeliveryKey, updates.freeDelivery)
    ensures SameExcept(newParams, searchParams, {QueryKey, PageKey, SortKey, OpenNowKey, IsNewKey, FreeDeliveryKey})
  {
    var p1 := UpdateQuery(searchParams, updates.searchQuery);
    var p2 := UpdatePage(p1, updates.page);
    var p3 := UpdateSort(p2, updates.sort);
    var p4 := UpdateFlag(p3, OpenNowKey, updates.openNow);
    var p5 := UpdateFlag(p4, IsNewKey, updates.isNew);
    newParams := UpdateFlag(p5, FreeDeliveryKey, updates.freeDelivery);
    StepsFrame(searchParams, p1, p2, p3, p4, p5, newParams);
    StepsCarry(searchParams, p1, p2, p3, p4, p5, newParams);
  }
}
