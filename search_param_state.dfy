/**
 * `useSearchParamState`, `useSearchParamBooleanState` and
 * `useSearchParamNumberState`: a piece of component state kept in step with
 * one query-string key. Each hook is a class holding the router's parameters
 * and the local state; the read rule and the write rule of each are pure
 * functions on `Params`, proved to round-trip.
 */
module SearchParamState {
  import opened Wrappers
  import opened JsNumber
  import opened SearchParams

  // ---- string -------------------------------------------------------------

  /** `searchParams.get(key) || defaultValue`. */
  function ReadString(p: Params, key: string, defaultValue: string): (v: string)
    ensures key !in p ==> v == defaultValue
    ensures key in p && p[key] != "" ==> v == p[key]
    ensures key in p && p[key] == "" ==> v == defaultValue
  {
    var paramValue := Get(p, key);
    if paramValue.Some? && paramValue.value != "" then paramValue.value else defaultValue
  }

  /** The updater: set the key when the value is non-empty and not the default, else delete it. */
  function WriteString(p: Params, key: string, value: string, defaultValue: string): (r: Params)
    ensures key in r <==> value != "" && value != defaultValue
    ensures key in r ==> r[key] == value
    ensures SameExcept(r, p, {key})
  {
    if value != "" && value != defaultValue then p[key := value] else p - {key}
  }

  /** What is written reads back, except that "" reads back as the default. */
  lemma StringRoundTrip(p: Params, key: string, value: string, defaultValue: string)
    ensures ReadString(WriteString(p, key, value, defaultValue), key, defaultValue)
      == if value == "" then defaultValue else value
  {
  }

  /** Writing the same value twice is writing it once. */
  lemma StringWriteIdempotent(p: Params, key: string, value: string, defaultValue: string)
    ensures WriteString(WriteString(p, key, value, defaultValue), key, value, defaultValue)
      == WriteString(p, key, value, defaultValue)
  {
  }

  /** Writing what is read leaves the value read unchanged (the URL may lose an explicit default). */
  lemma StringWriteReadStable(p: Params, key: string, defaultValue: string)
    ensures var v := ReadString(p, key, defaultValue);
      ReadString(WriteString(p, key, v, defaultValue), key, defaultValue) == v
  {
  }

  class StringParamState {
    const key: string
    const defaultValue: string
    /** The router's search parameters. */
    var params: Params
    /** The hook's `useState`. */
    var state: string

    /** The lazy initial state: the read rule on the current parameters. */
    constructor (params: Params, key: string, defaultValue: string)
      ensures this.key == key && this.defaultValue == defaultValue && this.params == params
      ensures state == ReadString(params, key, defaultValue)
    {
      this.key := key;
      this.defaultValue := defaultValue;
      this.params := params;
      state := ReadString(params, key, defaultValue);
    }

    /** `setValue`: the state takes the value, the parameters go through the updater. */
    method SetValue(value: string)
      modifies this
      ensures state == value
      ensures params == WriteString(old(params), key, value, defaultValue)
    {
      state := value;
      params := WriteString(params, key, value, defaultValue);
    }

    /** The effect run when the parameters change: the state is read again. */
    method Sync()
      modifies this
      ensures params == old(params)
      ensures state == ReadString(params, key, defaultValue)
    {
      state := ReadString(params, key, defaultValue);
    }

    /** A navigation (back/forward) replaces the parameters; the effect then reads them. */
    method Navigate(newParams: Params)
      modifies this
      ensures params == newParams
      ensures state == ReadString(newParams, key, defaultValue)
    {
      params := newParams;
      Sync();
    }
  }

  /**
   * `setValue(v)` followed by the effect, which runs only when the parameters
   * changed: the state is `v`, except that clearing a key that was present
   * reads back the default. Clearing a key that was already absent leaves the
   * parameters as they were, so the effect does not run and the state stays "".
   */
  method SetValueThenSync(h: StringParamState, value: string)
    modifies h
    ensures h.state == if value == "" && h.key in old(h.params) then h.defaultValue else value
    ensures SameExcept(h.params, old(h.params), {h.key})
  {
    var before := h.params;
    h.SetValue(value);
    if value == "" && h.key !in before {
      assert h.params == before;
    }
    if h.params != before {
      h.Sync();
      StringRoundTrip(before, h.key, value, h.defaultValue);
    }
  }

  // ---- boolean ------------------------------------------------------------

  /** Absent reads as the default, present reads as `paramValue === "true"`. */
  function ReadBool(p: Params, key: string, defaultValue: bool): (v: bool)
    ensures key !in p ==> v == defaultValue
    ensures key in p ==> (v <==> p[key] == "true")
  {
    var paramValue := Get(p, key);
    if paramValue.None? then defaultValue else paramValue.value == "true"
  }

  /** `value.toString()` of a boolean. */
  function BoolToString(b: bool): string {
    if b then "true" else "false"
  }

  /** The updater: set `String(value)` when it differs from the default, else delete. */
  function WriteBool(p: Params, key: string, value: bool, defaultValue: bool): (r: Params)
    ensures key in r <==> value != defaultValue
    ensures key in r ==> r[key] == BoolToString(value)
    ensures SameExcept(r, p, {key})
  {
    if value != defaultValue then p[key := BoolToString(value)] else p - {key}
  }

  /** Every boolean written reads back exactly. */
  lemma BoolRoundTrip(p: Params, key: string, value: bool, defaultValue: bool)
    ensures ReadBool(WriteBool(p, key, value, defaultValue), key, defaultValue) == value
  {
  }

  /** Any value other than "true" reads as false once present. */
  lemma BoolOtherTextIsFalse(p: Params, key: string, defaultValue: bool)
    requires key in p && p[key] != "true"
    ensures !ReadBool(p, key, defaultValue)
  {
  }

  class BooleanParamState {
    const key: string
    const defaultValue: bool
    var params: Params
    var state: bool

    constructor (params: Params, key: string, defaultValue: bool)
      ensures this.key == key && this.defaultValue == defaultValue && this.params == params
      ensures state == ReadBool(params, key, defaultValue)
    {
      this.key := key;
      this.defaultValue := defaultValue;
      this.params := params;
      state := ReadBool(params, key, defaultValue);
    }

    method SetValue(value: bool)
      modifies this
      ensures state == value
      ensures params == WriteBool(old(params), key, value, defaultValue)
    {
      state := value;
      params := WriteBool(params, key, value, defaultValue);
    }

    method Sync()
      modifies this
      ensures params == old(params)
      ensures state == ReadBool(params, key, defaultValue)
    {
      state := ReadBool(params, key, defaultValue);
    }
  }

  /** The boolean hook's state and its URL agree after a `setValue` and its effect. */
  method SetBoolThenSync(h: BooleanParamState, value: bool)
    modifies h
    ensures h.state == value
    ensures (h.key in h.params) <==> value != h.defaultValue
  {
    h.SetValue(value);
    h.Sync();
    BoolRoundTrip(old(h.params), h.key, value, h.defaultValue);
  }

  // ---- number -------------------------------------------------------------

  /** Absent reads as the default; present reads `Number(paramValue)`, NaN as the default. */
  function ReadNumber(p: Params, key: string, defaultValue: real): (v: real)
    ensures key !in p ==> v == defaultValue
    ensures key in p && ToNumber(p[key]).NaN? ==> v == defaultValue
    ensures key in p && ToNumber(p[key]).Finite? ==> v == ToNumber(p[key]).value
  {
    var paramValue := Get(p, key);
    if paramValue.None? then defaultValue
    else
      var numValue := ToNumber(paramValue.value);
      if numValue.NaN? then defaultValue else numValue.value
  }

  /** The updater for an integer value: set `value.toString()` unless it is the default. */
  function WriteNumber(p: Params, key: string, value: int, defaultValue: real): (r: Params)
    ensures key in r <==> value as real != defaultValue
    ensures key in r ==> r[key] == IntToString(value)
    ensures SameExcept(r, p, {key})
  {
    if value as real != defaultValue then p[key := IntToString(value)] else p - {key}
  }

  /** Every integer written reads back exactly. */
  lemma NumberRoundTrip(p: Params, key: string, value: int, defaultValue: real)
    ensures ReadNumber(WriteNumber(p, key, value, defaultValue), key, defaultValue) == value as real
  {
    IntRoundTrip(value);
  }

  class NumberParamState {
    const key: string
    const defaultValue: real
    var params: Params
    var state: real

    constructor (params: Params, key: string, defaultValue: real)
      ensures this.key == key && this.defaultValue == defaultValue && this.params == params
      ensures state == ReadNumber(params, key, defaultValue)
    {
      this.key := key;
      this.defaultValue := defaultValue;
      this.params := params;
      state := ReadNumber(params, key, defaultValue);
    }

    method SetValue(value: int)
      modifies this
      ensures state == value as real
      ensures params == WriteNumber(old(params), key, value, defaultValue)
    {
      state := value as real;
      params := WriteNumber(params, key, value, defaultValue);
    }

    method Sync()
      modifies this
      ensures params == old(params)
      ensures state == ReadNumber(params, key, defaultValue)
    {
      state := ReadNumber(params, key, defaultValue);
    }
  }

  /** The number hook's state survives the effect that `setValue` triggers. */
  method SetNumberThenSync(h: NumberParamState, value: int)
    modifies h
    ensures h.state == value as real
  {
    h.SetValue(value);
    h.Sync();
    NumberRoundTrip(old(h.params), h.key, value, h.defaultValue);
  }
}
