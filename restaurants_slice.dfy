/**
 * The restaurants slice of the store (the feature version): the list, the
 * loading flag and the last error message. The reducers mutate an Immer
 * draft, modelled as a class whose methods change its fields; `Reduce` is
 * the reducer `createSlice` exports, a pure function of state and action.
 */
module RestaurantsSlice {
  import opened Wrappers
  import opened Restaurants

  datatype State = State(restaurants: seq<Restaurant>, loading: bool, error: Option<string>)

  /** `initialState`. */
  const Initial := State([], false, None)

  /** The slice's actions; `Other` is any action of another slice. */
  datatype Action =
    | FetchRestaurantsStart
    | FetchRestaurantsSuccess(payload: seq<Restaurant>)
    | FetchRestaurantsFailure(message: string)
    | Other

  /** The exported reducer. */
  function Reduce(s: State, a: Action): (r: State)
    ensures a.FetchRestaurantsStart? ==> r.loading && r.error == None && r.restaurants == s.restaurants
    ensures a.FetchRestaurantsSuccess? ==> !r.loading && r.restaurants == a.payload && r.error == s.error
    ensures a.FetchRestaurantsFailure? ==> !r.loading && r.error == Some(a.message) && r.restaurants == s.restaurants
    ensures a.Other? ==> r == s
  {
    match a
    case FetchRestaurantsStart => s.(loading := true, error := None)
    case FetchRestaurantsSuccess(payload) => s.(loading := false, restaurants := payload)
    case FetchRestaurantsFailure(message) => s.(loading := false, error := Some(message))
    case Other => s
  }

  /** The state after dispatching `actions` in order. */
  function Replay(s: State, actions: seq<Action>): State
    decreases |actions|
  {
    if actions == [] then s else Replay(Reduce(s, actions[0]), actions[1..])
  }

  /** While a fetch is in flight no error is shown. */
  predicate Consistent(s: State) {
    s.loading ==> s.error == None
  }

  /** Every reducer keeps `Consistent`. */
  lemma ReducePreservesConsistent(s: State, a: Action)
    requires Consistent(s)
    ensures Consistent(Reduce(s, a))
  {
  }

  /** Every state reachable from the initial state is consistent. */
  lemma {:induction false} ReplayConsistent(s: State, actions: seq<Action>)
    requires Consistent(s)
    ensures Consistent(Replay(s, actions))
    decreases |actions|
  {
    if actions != [] {
      ReducePreservesConsistent(s, actions[0]);
      ReplayConsistent(Reduce(s, actions[0]), actions[1..]);
    }
  }

  /** A fetch that succeeds leaves exactly its payload, whatever came before, and no error. */
  lemma StartThenSuccess(s: State, payload: seq<Restaurant>)
    ensures Replay(s, [FetchRestaurantsStart, FetchRestaurantsSuccess(payload)]) == State(payload, false, None)
  {
    var started := Reduce(s, FetchRestaurantsStart);
    assert [FetchRestaurantsStart, FetchRestaurantsSuccess(payload)][1..] == [FetchRestaurantsSuccess(payload)];
    assert Replay(started, [FetchRestaurantsSuccess(payload)]) == Replay(Reduce(started, FetchRestaurantsSuccess(payload)), []);
  }

  /** A fetch that fails keeps the previous list and shows the message. */
  lemma StartThenFailure(s: State, message: string)
    ensures Replay(s, [FetchRestaurantsStart, FetchRestaurantsFailure(message)]) == State(s.restaurants, false, Some(message))
  {
    var started := Reduce(s, FetchRestaurantsStart);
    assert [FetchRestaurantsStart, FetchRestaurantsFailure(message)][1..] == [FetchRestaurantsFailure(message)];
    assert Replay(started, [FetchRestaurantsFailure(message)]) == Replay(Reduce(started, FetchRestaurantsFailure(message)), []);
  }

  /** The draft the reducers mutate. */
  class Draft {
    var restaurants: seq<Restaurant>
    var loading: bool
    var error: Option<string>

    function Snapshot(): State
      reads this
    {
      State(restaurants, loading, error)
    }

    constructor ()
      ensures Snapshot() == Initial
    {
      restaurants := [];
      loading := false;
      error := None;
    }

    /** `fetchRestaurantsStart`. */
    method FetchStart()
      modifies this
      ensures Snapshot() == Reduce(old(Snapshot()), FetchRestaurantsStart)
    {
      loading := true;
      error := None;
    }

    /** `fetchRestaurantsSuccess`. */
    method FetchSuccess(payload: seq<Restaurant>)
      modifies this
      ensures Snapshot() == Reduce(old(Snapshot()), FetchRestaurantsSuccess(payload))
    {
      loading := false;
      restaurants := payload;
    }

    /** `fetchRestaurantsFailure`. */
    method FetchFailure(message: string)
      modifies this
      ensures Snapshot() == Reduce(old(Snapshot()), FetchRestaurantsFailure(message))
    {
      loading := false;
      error := Some(message);
    }

    /** The slice reducer running on the draft: one action, or none for another slice's. */
    method Dispatch(a: Action)
      modifies this
      ensures Snapshot() == Reduce(old(Snapshot()), a)
      ensures Consistent(old(Snapshot())) ==> Consistent(Snapshot())
    {
      match a
      case FetchRestaurantsStart => FetchStart();
      case FetchRestaurantsSuccess(payload) => FetchSuccess(payload);
      case FetchRestaurantsFailure(message) => FetchFailure(message);
      case Other =>
    }
  }
}
