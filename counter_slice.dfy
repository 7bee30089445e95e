/**
 * The counter slice: `increment` adds one; `incrementAsync` changes nothing
 * here, since the saga that handles it is not part of this model.
 */
module CounterSlice {
  datatype State = State(value: int)

  const Initial := State(0)

  datatype Action = Increment | IncrementAsync | Other

  function Reduce(s: State, a: Action): (r: State)
    ensures a.Increment? ==> r.value == s.value + 1
    ensures !a.Increment? ==> r == s
  {
    match a
    case Increment => s.(value := s.value + 1)
    case IncrementAsync => s
    case Other => s
  }

  function Replay(s: State, actions: seq<Action>): State
    decreases |actions|
  {
    if actions == [] then s else Replay(Reduce(s, actions[0]), actions[1..])
  }

  /** The number of `Increment` actions in a list. */
  function Increments(actions: seq<Action>): nat
    decreases |actions|
  {
    if actions == [] then 0 else (if actions[0].Increment? then 1 else 0) + Increments(actions[1..])
  }

  /** The counter equals its start value plus the increments dispatched; nothing else moves it. */
  lemma {:induction false} ReplayCounts(s: State, actions: seq<Action>)
    ensures Replay(s, actions).value == s.value + Increments(actions)
    decreases |actions|
  {
    if actions != [] {
      ReplayCounts(Reduce(s, actions[0]), actions[1..]);
    }
  }

  class Draft {
    var value: int

    constructor ()
      ensures value == Initial.value
    {
      value := 0;
    }

    /** `increment`: `state.value += 1`. */
    method IncrementAction()
      modifies this
      ensures State(value) == Reduce(State(old(value)), Increment)
    {
      value := value + 1;
    }

    /** `incrementAsync`: the reducer leaves the draft as it is. */
    method IncrementAsyncAction()
      ensures State(value) == Reduce(State(old(value)), IncrementAsync)
    {
    }
  }
}
