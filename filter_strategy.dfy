/**
 * The search-query filter strategy: keep the restaurants whose name or some
 * cuisine name contains the query, ignoring case.
 */
module FilterStrategy {
  import opened Wrappers
  import opened JsText
  import opened Restaurants
  import opened Subsequences

  /** A `FilterBySearchQuery` instance; its query is fixed at construction. */
  datatype FilterBySearchQuery = FilterBySearchQuery(searchQuery: string)

  /** `cuisines.some(c => c.name.toLowerCase().includes(query))`. */
  predicate SomeCuisineIncludes(cuisines: seq<Cuisine>, query: string) {
    cuisines != [] && (Includes(Lower(cuisines[0].name), query) || SomeCuisineIncludes(cuisines[1..], query))
  }

  lemma {:induction false} SomeCuisineIncludesIff(cuisines: seq<Cuisine>, query: string)
    ensures SomeCuisineIncludes(cuisines, query) <==>
            exists i :: 0 <= i < |cuisines| && Includes(Lower(cuisines[i].name), query)
  {
    if cuisines != [] {
      SomeCuisineIncludesIff(cuisines[1..], query);
      if exists i :: 0 <= i < |cuisines| && Includes(Lower(cuisines[i].name), query) {
        var i :| 0 <= i < |cuisines| && Includes(Lower(cuisines[i].name), query);
        if i > 0 {
          assert cuisines[1..][i - 1] == cuisines[i];
        }
      }
      if SomeCuisineIncludes(cuisines[1..], query) {
        var j :| 0 <= j < |cuisines[1..]| && Includes(Lower(cuisines[1..][j].name), query);
        assert cuisines[j + 1] == cuisines[1..][j];
      }
    }
  }

  /**
   * The filter's predicate for an already trimmed, lower-cased query. A missing
   * name or missing cuisines simply do not match.
   */
  predicate Matches(r: Restaurant, query: string) {
    (r.name.Some? && Includes(Lower(r.name.value), query))
    || (r.cuisines.Some? && SomeCuisineIncludes(r.cuisines.value, query))
  }

  /** `data.filter(r => Matches(r, query))`. */
  function KeepMatching(data: seq<Restaurant>, query: string): (r: seq<Restaurant>)
    ensures IsSubsequence(r, data)
    ensures forall x :: x in r ==> Matches(x, query)
    ensures forall x :: x in data && Matches(x, query) ==> x in r
  {
    if data == [] then []
    else
      var rest := KeepMatching(data[1..], query);
      assert forall x :: x in data ==> x == data[0] || x in data[1..];
      if Matches(data[0], query) then [data[0]] + rest else rest
  }

  /** The query the filter compares with: `searchQuery.trim().toLowerCase()`. */
  function NormalizedQuery(f: FilterBySearchQuery): string {
    Lower(Trim(f.searchQuery))
  }

  /**
   * `FilterBySearchQuery.apply`: whatever the query, the result is an
   * order-preserving subsequence of the input; a blank query keeps it whole.
   */
  function Apply(f: FilterBySearchQuery, data: seq<Restaurant>): (r: seq<Restaurant>)
    ensures IsSubsequence(r, data) && |r| <= |data|
    ensures Trim(f.searchQuery) == "" ==> r == data
  {
    var r := if f.searchQuery == "" || Trim(f.searchQuery) == "" then data
      else KeepMatching(data, NormalizedQuery(f));
    SubsequenceRefl(data);
    SubsequenceLength(r, data);
    r
  }

  /** An empty or all-whitespace query returns the input itself. */
  lemma BlankQueryIsIdentity(f: FilterBySearchQuery, data: seq<Restaurant>)
    requires forall i :: 0 <= i < |f.searchQuery| ==> IsWhitespace(f.searchQuery[i])
    ensures Apply(f, data) == data
  {
    TrimEmptyIffBlank(f.searchQuery);
  }

  /**
   * The matching rule stated positionally: the lower-cased name, or the
   * lower-cased name of some cuisine, contains the query.
   */
  ghost predicate NameOrSomeCuisineContains(r: Restaurant, query: string) {
    (r.name.Some? && Includes(Lower(r.name.value), query))
    || (r.cuisines.Some? &&
        exists j :: 0 <= j < |r.cuisines.value| && Includes(Lower(r.cuisines.value[j].name), query))
  }

  lemma MatchesIff(r: Restaurant, query: string)
    ensures Matches(r, query) <==> NameOrSomeCuisineContains(r, query)
  {
    if r.cuisines.Some? {
      SomeCuisineIncludesIff(r.cuisines.value, query);
    }
  }

  /**
   * With a non-blank query a restaurant is kept exactly when its lower-cased
   * name, or some lower-cased cuisine name, contains the trimmed, lower-cased
   * query; the result keeps the input order.
   */
  lemma ApplyKeepsExactlyMatching(f: FilterBySearchQuery, data: seq<Restaurant>)
    requires exists i :: 0 <= i < |f.searchQuery| && !IsWhitespace(f.searchQuery[i])
    ensures IsSubsequence(Apply(f, data), data)
    ensures forall r :: r in Apply(f, data) <==> r in data && NameOrSomeCuisineContains(r, NormalizedQuery(f))
  {
    TrimEmptyIffBlank(f.searchQuery);
    var q := NormalizedQuery(f);
    assert Apply(f, data) == KeepMatching(data, q);
    SubsequenceElements(Apply(f, data), data);
    forall r ensures Matches(r, q) <==> NameOrSomeCuisineContains(r, q) {
      MatchesIff(r, q);
    }
  }

  /** Empty input gives empty output. */
  lemma ApplyEmpty(f: FilterBySearchQuery)
    ensures Apply(f, []) == []
  {
  }

  lemma LowerCharIdempotent(c: char)
    ensures LowerChar(LowerChar(c)) == LowerChar(c)
  {
  }

  lemma {:induction false} LowerIdempotent(s: string)
    ensures Lower(Lower(s)) == Lower(s)
  {
    forall i | 0 <= i < |s| ensures Lower(Lower(s))[i] == Lower(s)[i] {
      LowerCharIdempotent(s[i]);
    }
  }

  lemma LowerCharWhitespace(c: char)
    ensures IsWhitespace(LowerChar(c)) <==> IsWhitespace(c)
  {
  }

  lemma {:induction false} TrimStartLower(s: string)
    ensures TrimStart(Lower(s)) == Lower(TrimStart(s))
  {
    if s != [] {
      LowerCharWhitespace(s[0]);
      assert Lower(s)[1..] == Lower(s[1..]);
      TrimStartLower(s[1..]);
    }
  }

  lemma {:induction false} TrimEndLower(s: string)
    ensures TrimEnd(Lower(s)) == Lower(TrimEnd(s))
  {
    if s != [] {
      LowerCharWhitespace(s[|s| - 1]);
      assert Lower(s)[..|s| - 1] == Lower(s[..|s| - 1]);
      TrimEndLower(s[..|s| - 1]);
    }
  }

  /** The case of the query does not matter: "BURGER" keeps what "burger" keeps. */
  lemma QueryCaseInsensitive(q: string, data: seq<Restaurant>)
    ensures Apply(FilterBySearchQuery(Lower(q)), data) == Apply(FilterBySearchQuery(q), data)
  {
    TrimStartLower(q);
    TrimEndLower(TrimStart(q));
    LowerIdempotent(Trim(q));
    assert Trim(Lower(q)) == Lower(Trim(q));
  }
}
