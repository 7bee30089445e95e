/** The user slice: the postcode the restaurants are fetched for. */
module UserSlice {
  datatype State = State(postcode: string)

  /** `initialState`. */
  const Initial := State("CT12EH")

  datatype Action = SetPostcode(payload: string) | Other

  function Reduce(s: State, a: Action): (r: State)
    ensures a.SetPostcode? ==> r.postcode == a.payload
    ensures a.Other? ==> r == s
  {
    match a
    case SetPostcode(payload) => s.(postcode := payload)
    case Other => s
  }

  function Replay(s: State, actions: seq<Action>): State
    decreases |actions|
  {
    if actions == [] then s else Replay(Reduce(s, actions[0]), actions[1..])
  }

  /** Until a postcode is set, the store holds "CT12EH". */
  lemma {:induction false} OtherActionsKeepPostcode(s: State, actions: seq<Action>)
    requires forall i :: 0 <= i < |actions| ==> actions[i].Other?
    ensures Replay(s, actions) == s
    decreases |actions|
  {
    if actions != [] {
      OtherActionsKeepPostcode(s, actions[1..]);
    }
  }

  /** Setting a postcode overwrites whatever was there: the last one set wins. */
  lemma SetTwice(s: State, p1: string, p2: string)
    ensures Reduce(Reduce(s, SetPostcode(p1)), SetPostcode(p2)) == Reduce(s, SetPostcode(p2))
  {
  }

  class Draft {
    var postcode: string

    constructor ()
      ensures postcode == Initial.postcode
    {
      postcode := "CT12EH";
    }

    /** `setPostcode`. */
    method SetPostcodeAction(payload: string)
      modifies this
      ensures State(postcode) == Reduce(State(old(postcode)), SetPostcode(payload))
    {
      postcode := payload;
    }
  }
}
