/**
 * The URL query string as the list-state hooks see it: a `URLSearchParams`
 * whose keys are all distinct, so a map from key to value. `set(k, v)` is the
 * map update `p[k := v]`, `delete(k)` is `p - {k}`, and `get(k)` is `Get`.
 */
module SearchParams {
  import opened Wrappers

  type Params = map<string, string>

  /** `searchParams.get(key)`: the value, or `null` when the key is absent. */
  function Get(p: Params, key: string): (v: Option<string>)
    ensures v.Some? <==> key in p
    ensures v.Some? ==> v.value == p[key]
  {
    if key in p then Some(p[key]) else None
  }

  /** `key` is present in both or neither, with the same value. */
  predicate KeyUnchanged(a: Params, b: Params, key: string) {
    (key in a <==> key in b) && (key in a && key in b ==> a[key] == b[key])
  }

  /** `a` and `b` agree on every key outside `keys`. */
  ghost predicate SameExcept(a: Params, b: Params, keys: set<string>) {
    forall k :: k !in keys ==> KeyUnchanged(a, b, k)
  }

  /** Agreement outside a set of keys composes across two updates. */
  lemma SameExceptTrans(a: Params, b: Params, c: Params, ka: set<string>, kb: set<string>)
    requires SameExcept(b, a, ka) && SameExcept(c, b, kb)
    ensures SameExcept(c, a, ka + kb)
  {
    forall k | k !in ka + kb
      ensures KeyUnchanged(c, a, k)
    {
      assert KeyUnchanged(b, a, k) && KeyUnchanged(c, b, k);
    }
  }
}
