/**
 * The five sort strategies and their registry. Each strategy other than best
 * match copies the list and sorts it with a comparator; here the strategies
 * are a closed datatype, `Compare` is the one dispatch on it, and the spec sort
 * is an insertion sort that is proved to be an ordered permutation.
 */
module SortStrategy {
  import opened Wrappers
  import opened Restaurants

  datatype SortOption = BestMatch | Reviews | EstimatedDeliveryTime | MinOrderAmount | DeliveryCost

  /** The option's key in `RESTAURANT_SORT_OPTIONS` and in the URL. */
  function Name(o: SortOption): string {
    match o
    case BestMatch => "bestMatch"
    case Reviews => "reviews"
    case EstimatedDeliveryTime => "estimatedDeliveryTime"
    case MinOrderAmount => "minOrderAmount"
    case DeliveryCost => "deliveryCost"
  }

  /** The strings that name a sort option. */
  const Names: set<string> := {"bestMatch", "reviews", "estimatedDeliveryTime", "minOrderAmount", "deliveryCost"}

  lemma NameInNames(o: SortOption)
    ensures Name(o) in Names
  {
  }

  function Sign(x: real): int {
    if x < 0.0 then -1 else if x > 0.0 then 1 else 0
  }

  /** `a.rating?.starRating ?? 0`. */
  function StarRating(r: Restaurant): real {
    if r.rating.Some? then r.rating.value.starRating.GetOr(0.0) else 0.0
  }

  /** `a.deliveryEtaMinutes?.rangeLower`, where `None` stands for `?? Infinity`. */
  function EtaLower(r: Restaurant): Option<real> {
    if r.deliveryEtaMinutes.Some? then r.deliveryEtaMinutes.value.rangeLower else None
  }

  /** `a.minimumDeliveryValue ?? 0`. */
  function MinOrder(r: Restaurant): real {
    r.minimumDeliveryValue.GetOr(0.0)
  }

  /** `a.deliveryCost ?? 0`. */
  function Cost(r: Restaurant): real {
    r.deliveryCost.GetOr(0.0)
  }

  /**
   * The sign of `etaA - etaB` with a missing ETA as Infinity. Two missing ETAs
   * give `Infinity - Infinity`, NaN, which the sort treats as 0.
   */
  function EtaCompare(x: Option<real>, y: Option<real>): int {
    match (x, y)
    case (Some(a), Some(b)) => Sign(a - b)
    case (None, Some(_)) => 1
    case (Some(_), None) => -1
    case (None, None) => 0
  }

  /** The sign of each strategy's comparator; best match compares everything equal. */
  function Compare(o: SortOption, a: Restaurant, b: Restaurant): (r: int)
    ensures -1 <= r <= 1
    ensures o == BestMatch ==> r == 0
  {
    match o
    case BestMatch => 0
    case Reviews => Sign(StarRating(b) - StarRating(a))
    case EstimatedDeliveryTime => EtaCompare(EtaLower(a), EtaLower(b))
    case MinOrderAmount => Sign(MinOrder(a) - MinOrder(b))
    case DeliveryCost => Sign(Cost(a) - Cost(b))
  }

  /** Swapping the arguments flips the comparator's sign. */
  lemma CompareAntisymmetric(o: SortOption, a: Restaurant, b: Restaurant)
    ensures Compare(o, a, b) == -Compare(o, b, a)
  {
  }

  /** `a` may precede `b`: the comparator does not ask for `b` first. */
  predicate InOrder(o: SortOption, a: Restaurant, b: Restaurant) {
    Compare(o, a, b) <= 0
  }

  lemma InOrderTotal(o: SortOption, a: Restaurant, b: Restaurant)
    ensures InOrder(o, a, b) || InOrder(o, b, a)
  {
  }

  lemma InOrderTransitive(o: SortOption, a: Restaurant, b: Restaurant, c: Restaurant)
    requires InOrder(o, a, b) && InOrder(o, b, c)
    ensures InOrder(o, a, c)
  {
  }

  predicate Sorted(o: SortOption, s: seq<Restaurant>) {
    forall i, j :: 0 <= i < j < |s| ==> InOrder(o, s[i], s[j])
  }

  lemma SortedCons(o: SortOption, h: Restaurant, t: seq<Restaurant>)
    requires Sorted(o, t)
    requires forall y :: y in t ==> InOrder(o, h, y)
    ensures Sorted(o, [h] + t)
  {
    var s := [h] + t;
    forall i, j | 0 <= i < j < |s| ensures InOrder(o, s[i], s[j]) {
      if i > 0 {
        assert s[i] == t[i - 1] && s[j] == t[j - 1];
      } else {
        assert s[j] in t;
      }
    }
  }

  /** Insert `x` before the first element it may precede. */
  function Insert(o: SortOption, x: Restaurant, s: seq<Restaurant>): (r: seq<Restaurant>)
    ensures |r| == |s| + 1
  {
    if s == [] then [x]
    else if InOrder(o, x, s[0]) then [x] + s
    else [s[0]] + Insert(o, x, s[1..])
  }

  /** Sorting by the option's comparator. */
  function InsertionSort(o: SortOption, s: seq<Restaurant>): (r: seq<Restaurant>)
    ensures |r| == |s|
  {
    if s == [] then [] else Insert(o, s[0], InsertionSort(o, s[1..]))
  }

  lemma {:induction false} InsertPermutes(o: SortOption, x: Restaurant, s: seq<Restaurant>)
    ensures multiset(Insert(o, x, s)) == multiset(s) + multiset{x}
  {
    if s != [] && !InOrder(o, x, s[0]) {
      InsertPermutes(o, x, s[1..]);
      assert s == [s[0]] + s[1..];
    }
  }

  lemma {:induction false} InsertSorted(o: SortOption, x: Restaurant, s: seq<Restaurant>)
    requires Sorted(o, s)
    ensures Sorted(o, Insert(o, x, s))
  {
    if s == [] {
    } else if InOrder(o, x, s[0]) {
      forall y | y in s ensures InOrder(o, x, y) {
        var j :| 0 <= j < |s| && s[j] == y;
        if j > 0 { InOrderTransitive(o, x, s[0], y); }
      }
      SortedCons(o, x, s);
    } else {
      InOrderTotal(o, x, s[0]);
      assert s == [s[0]] + s[1..];
      var rest := Insert(o, x, s[1..]);
      InsertSorted(o, x, s[1..]);
      InsertPermutes(o, x, s[1..]);
      forall y | y in rest ensures InOrder(o, s[0], y) {
        assert y in multiset(rest);
        if y != x {
          assert y in multiset(s[1..]);
          assert y in s[1..];
        }
      }
      SortedCons(o, s[0], rest);
    }
  }

  /** The insertion sort returns an ordered permutation of its input. */
  lemma {:induction false} InsertionSortCorrect(o: SortOption, s: seq<Restaurant>)
    ensures Sorted(o, InsertionSort(o, s))
    ensures multiset(InsertionSort(o, s)) == multiset(s)
  {
    if s != [] {
      InsertionSortCorrect(o, s[1..]);
      InsertSorted(o, s[0], InsertionSort(o, s[1..]));
      InsertPermutes(o, s[0], InsertionSort(o, s[1..]));
      assert s == [s[0]] + s[1..];
    }
  }

  /**
   * `registry.getStrategy(o).sort(rs)`: best match returns its input, every
   * other strategy a sorted copy.
   */
  function Sort(o: SortOption, rs: seq<Restaurant>): (r: seq<Restaurant>)
    ensures multiset(r) == multiset(rs) && |r| == |rs|
    ensures Sorted(o, r)
    ensures o == BestMatch ==> r == rs
  {
    var r := match o
      case BestMatch => rs
      case _ => InsertionSort(o, rs);
    InsertionSortCorrect(o, rs);
    assert |multiset(r)| == |r| && |multiset(rs)| == |rs|;
    r
  }

  /** By reviews: non-increasing star rating, a missing rating counting as 0. */
  lemma ReviewsNonIncreasing(rs: seq<Restaurant>)
    ensures forall i, j :: 0 <= i < j < |Sort(Reviews, rs)| ==>
      StarRating(Sort(Reviews, rs)[i]) >= StarRating(Sort(Reviews, rs)[j])
  {
  }

  /**
   * By delivery time: the known lower bounds are non-decreasing, and every
   * restaurant without one comes after all that have one.
   */
  lemma DeliveryTimeAscendingUnknownLast(rs: seq<Restaurant>)
    ensures forall i, j ::
      (0 <= i < j < |Sort(EstimatedDeliveryTime, rs)| && EtaLower(Sort(EstimatedDeliveryTime, rs)[j]).Some?) ==>
      (EtaLower(Sort(EstimatedDeliveryTime, rs)[i]).Some? &&
       EtaLower(Sort(EstimatedDeliveryTime, rs)[i]).value <= EtaLower(Sort(EstimatedDeliveryTime, rs)[j]).value)
  {
  }

  /** By minimum order: non-decreasing, a missing minimum counting as 0. */
  lemma MinOrderNonDecreasing(rs: seq<Restaurant>)
    ensures forall i, j :: 0 <= i < j < |Sort(MinOrderAmount, rs)| ==>
      MinOrder(Sort(MinOrderAmount, rs)[i]) <= MinOrder(Sort(MinOrderAmount, rs)[j])
  {
  }

  /** By delivery cost: non-decreasing, a missing cost counting as 0. */
  lemma DeliveryCostNonDecreasing(rs: seq<Restaurant>)
    ensures forall i, j :: 0 <= i < j < |Sort(DeliveryCost, rs)| ==>
      Cost(Sort(DeliveryCost, rs)[i]) <= Cost(Sort(DeliveryCost, rs)[j])
  {
  }

  /**
   * `RestaurantSortStrategyRegistry.getStrategy`, as intended: each of the
   * five keys selects its own strategy and every other key best match.
   */
  function GetStrategy(key: string): (o: SortOption)
    ensures key in Names ==> Name(o) == key
    ensures key !in Names ==> o == BestMatch
  {
    if key == "reviews" then Reviews
    else if key == "estimatedDeliveryTime" then EstimatedDeliveryTime
    else if key == "minOrderAmount" then MinOrderAmount
    else if key == "deliveryCost" then DeliveryCost
    else BestMatch
  }

  /** The registry maps each option's key to that option. */
  lemma RegistryRoundTrip(o: SortOption)
    ensures GetStrategy(Name(o)) == o
  {
  }

  /** Any key that names no option falls back to best match. */
  lemma RegistryFallback(key: string)
    requires key !in Names
    ensures GetStrategy(key) == BestMatch
  {
  }

  /**
   * The properties every plain object literal inherits from `Object.prototype`;
   * reading one of them from `strategies` gives a truthy value that is not a
   * strategy.
   */
  const ObjectPrototypeMembers: set<string> := {
    "constructor", "hasOwnProperty", "isPrototypeOf", "propertyIsEnumerable",
    "toLocaleString", "toString", "valueOf", "__proto__",
    "__defineGetter__", "__defineSetter__", "__lookupGetter__", "__lookupSetter__"}

  /** What the lookup `this.strategies[option] || new SortByBestMatch()` yields. */
  datatype Lookup = Strategy(option: SortOption) | InheritedMember(key: string)

  /** `getStrategy` as written: a plain property read on an object literal. */
  function GetStrategyAsWritten(key: string): (r: Lookup)
    ensures r.InheritedMember? <==> key in ObjectPrototypeMembers
    ensures r.InheritedMember? ==> r.key == key
    ensures r.Strategy? ==> r.option == GetStrategy(key)
  {
    if key in Names then Strategy(GetStrategy(key))
    else if key in ObjectPrototypeMembers then InheritedMember(key)
    else Strategy(BestMatch)
  }

  /** On every key except the inherited ones, the lookup as written agrees with `GetStrategy`. */
  lemma AsWrittenAgrees(key: string)
    requires key !in ObjectPrototypeMembers
    ensures GetStrategyAsWritten(key) == Strategy(GetStrategy(key))
  {
  }

  /** The key "toString" gets no strategy from the registry as written, so `.sort` fails. */
  lemma AsWrittenToStringIsNoStrategy()
    ensures GetStrategyAsWritten("toString") == InheritedMember("toString")
    ensures GetStrategy("toString") == BestMatch
  {
    assert "toString" !in Names;
  }
}
