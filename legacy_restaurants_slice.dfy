/**
 * The restaurants slice as first written: as the feature version, and
 * `fetchRestaurantsStart` also records the postcode being fetched.
 */
module LegacyRestaurantsSlice {
  import opened Wrappers
  import opened Restaurants

  datatype State = State(restaurants: seq<Restaurant>, loading: bool, error: Option<string>, postcode: string)

  const Initial := State([], false, None, "")

  datatype Action =
    | FetchRestaurantsStart(postcode: string)
    | FetchRestaurantsSuccess(payload: seq<Restaurant>)
    | FetchRestaurantsFailure(message: string)
    | Other

  function Reduce(s: State, a: Action): (r: State)
    ensures a.FetchRestaurantsStart? ==>
      r.loading && r.error == None && r.postcode == a.postcode && r.restaurants == s.restaurants
    ensures a.FetchRestaurantsSuccess? ==>
      !r.loading && r.restaurants == a.payload && r.error == s.error && r.postcode == s.postcode
    ensures a.FetchRestaurantsFailure? ==>
      !r.loading && r.error == Some(a.message) && r.restaurants == s.restaurants && r.postcode == s.postcode
    ensures a.Other? ==> r == s
  {
    match a
    case FetchRestaurantsStart(postcode) => s.(loading := true, error := None, postcode := postcode)
    case FetchRestaurantsSuccess(payload) => s.(loading := false, restaurants := payload)
    case FetchRestaurantsFailure(message) => s.(loading := false, error := Some(message))
    case Other => s
  }

  function Replay(s: State, actions: seq<Action>): State
    decreases |actions|
  {
    if actions == [] then s else Replay(Reduce(s, actions[0]), actions[1..])
  }

  /** The postcode of the last start among `actions`, if any. */
  function LastPostcode(actions: seq<Action>): Option<string>
    decreases |actions|
  {
    if actions == [] then None
    else if actions[|actions| - 1].FetchRestaurantsStart? then Some(actions[|actions| - 1].postcode)
    else LastPostcode(actions[..|actions| - 1])
  }

  /** The state after a list of actions is the reduction of its last action. */
  lemma {:induction false} ReplaySnoc(s: State, actions: seq<Action>, a: Action)
    ensures Replay(s, actions + [a]) == Reduce(Replay(s, actions), a)
    decreases |actions|
  {
    if actions != [] {
      assert (actions + [a])[1..] == actions[1..] + [a];
      ReplaySnoc(Reduce(s, actions[0]), actions[1..], a);
    }
  }

  /** The postcode shown is the one of the most recent fetch start, or the earlier one if none. */
  lemma {:induction false} PostcodeIsLastStarted(s: State, actions: seq<Action>)
    ensures Replay(s, actions).postcode == LastPostcode(actions).GetOr(s.postcode)
    decreases |actions|
  {
    if actions != [] {
      var init := actions[..|actions| - 1];
      var last := actions[|actions| - 1];
      assert actions == init + [last];
      ReplaySnoc(s, init, last);
      PostcodeIsLastStarted(s, init);
    }
  }

  predicate Consistent(s: State) {
    s.loading ==> s.error == None
  }

  lemma {:induction false} ReplayConsistent(s: State, actions: seq<Action>)
    requires Consistent(s)
    ensures Consistent(Replay(s, actions))
    decreases |actions|
  {
    if actions != [] {
      ReplayConsistent(Reduce(s, actions[0]), actions[1..]);
    }
  }

  class Draft {
    var restaurants: seq<Restaurant>
    var loading: bool
    var error: Option<string>
    var postcode: string

    function Snapshot(): State
      reads this
    {
      State(restaurants, loading, error, postcode)
    }

    constructor ()
      ensures Snapshot() == Initial
    {
      restaurants := [];
      loading := false;
      error := None;
      postcode := "";
    }

    method FetchStart(payload: string)
      modifies this
      ensures Snapshot() == Reduce(old(Snapshot()), FetchRestaurantsStart(payload))
    {
      loading := true;
      error := None;
      postcode := payload;
    }

    method FetchSuccess(payload: seq<Restaurant>)
      modifies this
      ensures Snapshot() == Reduce(old(Snapshot()), FetchRestaurantsSuccess(payload))
    {
      loading := false;
      restaurants := payload;
    }

    method FetchFailure(message: string)
      modifies this
      ensures Snapshot() == Reduce(old(Snapshot()), FetchRestaurantsFailure(message))
    {
      loading := false;
      error := Some(message);
    }

    method Dispatch(a: Action)
      modifies this
      ensures Snapshot() == Reduce(old(Snapshot()), a)
    {
      match a
      case FetchRestaurantsStart(p) => FetchStart(p);
      case FetchRestaurantsSuccess(payload) => FetchSuccess(payload);
      case FetchRestaurantsFailure(message) => FetchFailure(message);
      case Other =>
    }
  }
}
