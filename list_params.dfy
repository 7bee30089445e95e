/**
 * The list selection state as read from the query string: `q`, `page`,
 * `sort` and the three facet flags, and the validity of `page` and `sort`
 * that the validation pass enforces. Both iterations of the list-state hook
 * read and validate with these same expressions.
 */
module ListParams {
  import opened Wrappers
  import opened JsNumber
  import opened SearchParams
  import SortStrategy

  const QueryKey := "q"
  const PageKey := "page"
  const SortKey := "sort"
  const OpenNowKey := "openNow"
  const IsNewKey := "isNew"
  const FreeDeliveryKey := "freeDelivery"

  /** `validSortOptions`. */
  const ValidSortOptions: seq<string> := ["bestMatch", "reviews", "estimatedDeliveryTime", "minOrderAmount", "deliveryCost"]

  lemma ValidSortOptionsAreOptionNames(s: string)
    ensures s in ValidSortOptions <==> s in SortStrategy.Names
    ensures s in ValidSortOptions <==> exists o :: SortStrategy.Name(o) == s
  {
    if s in ValidSortOptions {
      assert SortStrategy.Name(SortStrategy.GetStrategy(s)) == s;
    }
  }

  /** `searchParams.get("q") || ""`. */
  function ReadSearchQuery(p: Params): (r: string)
    ensures QueryKey in p ==> r == p[QueryKey]
    ensures QueryKey !in p ==> r == ""
  {
    var v := Get(p, QueryKey);
    if v.Some? && v.value != "" then v.value else ""
  }

  /** `Number(searchParams.get("page")) || 1`; `Number(null)` is 0. */
  function ReadPage(p: Params): (r: real)
    ensures r != 0.0
    ensures PageKey !in p ==> r == 1.0
    ensures PageKey in p && Truthy(ToNumber(p[PageKey])) ==> r == ToNumber(p[PageKey]).value
    ensures PageKey in p && !Truthy(ToNumber(p[PageKey])) ==> r == 1.0
  {
    var v := Get(p, PageKey);
    if v.None? then 1.0
    else
      var n := ToNumber(v.value);
      if Truthy(n) then n.value else 1.0
  }

  /** `searchParams.get("sort") || "bestMatch"`, not checked against the options. */
  function ReadSort(p: Params): (r: string)
    ensures r != ""
    ensures SortKey in p && p[SortKey] != "" ==> r == p[SortKey]
    ensures (SortKey !in p || p[SortKey] == "") ==> r == "bestMatch"
  {
    var v := Get(p, SortKey);
    if v.Some? && v.value != "" then v.value else "bestMatch"
  }

  /** `searchParams.get(key) === "true"`. */
  function ReadFlag(p: Params, key: string): (r: bool)
    ensures r <==> key in p && p[key] == "true"
  {
    Get(p, key) == Some("true")
  }

  predicate IsPositiveInteger(r: real) {
    r.Floor as real == r && r > 0.0
  }

  /** A present `page` is kept by validation: `Number(page)` is an integer above 0. */
  predicate PageParamValid(p: Params) {
    PageKey in p ==> IsInteger(ToNumber(p[PageKey])) && ToNumber(p[PageKey]).value > 0.0
  }

  /** A present `sort` is kept by validation: it is one of the five options. */
  predicate SortParamValid(p: Params) {
    SortKey in p ==> p[SortKey] in ValidSortOptions
  }

  /** Validation changes nothing: neither `page` nor `sort` is to be deleted. */
  predicate ParamsValid(p: Params): (b: bool)
    ensures b <==> InvalidKeys(p) == {}
  {
    PageParamValid(p) && SortParamValid(p)
  }

  /** The keys the validation pass deletes. */
  function InvalidKeys(p: Params): (r: set<string>)
    ensures r <= {PageKey, SortKey}
    ensures PageKey in r <==> !PageParamValid(p)
    ensures SortKey in r <==> !SortParamValid(p)
  {
    (if PageParamValid(p) then {} else {PageKey}) + (if SortParamValid(p) then {} else {SortKey})
  }

  /** A valid query string reads back a positive integer page and one of the five sorts. */
  lemma ValidParamsRead(p: Params)
    requires ParamsValid(p)
    ensures IsPositiveInteger(ReadPage(p))
    ensures ReadSort(p) in ValidSortOptions
  {
  }

  /** Deleting the invalid keys leaves a valid query string. */
  lemma RemovingInvalidKeysIsValid(p: Params)
    ensures ParamsValid(p - InvalidKeys(p))
    ensures InvalidKeys(p) == {} <==> ParamsValid(p)
  {
  }

  /** What `String(n)` writes for `page` reads back as `n`, or as 1 when `n` is 0. */
  lemma PageWriteReadsBack(p: Params, n: int)
    ensures ReadPage(p[PageKey := IntToString(n)]) == if n == 0 then 1.0 else n as real
    ensures PageParamValid(p[PageKey := IntToString(n)]) <==> n > 0
  {
    IntRoundTrip(n);
    assert Get(p[PageKey := IntToString(n)], PageKey) == Some(IntToString(n));
  }

  /** The page reset writes "1", which reads as page 1 and passes validation. */
  lemma PageResetReadsOne(p: Params)
    ensures ReadPage(p[PageKey := "1"]) == 1.0
    ensures PageParamValid(p[PageKey := "1"])
  {
    PageWriteReadsBack(p, 1);
    assert IntToString(1) == "1";
  }

  /** The encoding of `q`: `if (query) set("q", query) else delete("q")`. */
  method WriteQuery(params: Params, query: string) returns (newParams: Params)
    ensures QueryKey in newParams <==> query != ""
    ensures QueryKey in newParams ==> newParams[QueryKey] == query
    ensures ReadSearchQuery(newParams) == query
    ensures SameExcept(newParams, params, {QueryKey})
  {
    newParams := params;
    if query != "" {
      newParams := newParams[QueryKey := query];
    } else {
      newParams := newParams - {QueryKey};
    }
  }

  /** The encoding of `sort`: best match deletes the key, any other option sets its name. */
  method WriteSort(params: Params, sortOption: SortStrategy.SortOption) returns (newParams: Params)
    ensures SortKey in newParams <==> sortOption != SortStrategy.BestMatch
    ensures ReadSort(newParams) == SortStrategy.Name(sortOption)
    ensures SortStrategy.GetStrategy(ReadSort(newParams)) == sortOption
    ensures SameExcept(newParams, params, {SortKey})
  {
    newParams := params;
    if sortOption == SortStrategy.BestMatch {
      newParams := newParams - {SortKey};
    } else {
      newParams := newParams[SortKey := SortStrategy.Name(sortOption)];
    }
    SortStrategy.RegistryRoundTrip(sortOption);
  }

  /** The encoding of a facet flag: `true` sets "true", `false` deletes the key. */
  method WriteFlag(params: Params, key: string, value: bool) returns (newParams: Params)
    ensures key in newParams <==> value
    ensures value ==> newParams[key] == "true"
    ensures ReadFlag(newParams, key) == value
    ensures SameExcept(newParams, params, {key})
  {
    newParams := params;
    if value {
      newParams := newParams[key := "true"];
    } else {
      newParams := newParams - {key};
    }
  }
}
