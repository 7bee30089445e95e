/** Order-preserving subsequences: what `Array.prototype.filter` returns. */
module Subsequences {

  /** `t` is obtained from `s` by deleting elements, keeping the order of the rest. */
  predicate IsSubsequence<T(==)>(t: seq<T>, s: seq<T>)
    decreases |s|
  {
    t == [] || (s != [] && ((t[0] == s[0] && IsSubsequence(t[1..], s[1..])) || IsSubsequence(t, s[1..])))
  }

  lemma {:induction false} SubsequenceLength<T>(t: seq<T>, s: seq<T>)
    requires IsSubsequence(t, s)
    ensures |t| <= |s|
    decreases |s|
  {
    if t != [] {
      if t[0] == s[0] && IsSubsequence(t[1..], s[1..]) {
        SubsequenceLength(t[1..], s[1..]);
      } else {
        SubsequenceLength(t, s[1..]);
      }
    }
  }

  lemma {:induction false} SubsequenceElements<T>(t: seq<T>, s: seq<T>)
    requires IsSubsequence(t, s)
    ensures forall x :: x in t ==> x in s
    decreases |s|
  {
    if t != [] {
      if t[0] == s[0] && IsSubsequence(t[1..], s[1..]) {
        SubsequenceElements(t[1..], s[1..]);
        assert forall x :: x in t ==> x == t[0] || x in t[1..];
      } else {
        SubsequenceElements(t, s[1..]);
      }
    }
  }

  lemma {:induction false} SubsequenceRefl<T>(s: seq<T>)
    ensures IsSubsequence(s, s)
    decreases |s|
  {
    if s != [] {
      SubsequenceRefl(s[1..]);
    }
  }

  lemma {:induction false} SubsequenceTrans<T>(u: seq<T>, t: seq<T>, s: seq<T>)
    requires IsSubsequence(u, t) && IsSubsequence(t, s)
    ensures IsSubsequence(u, s)
    decreases |s|
  {
    if u == [] {
    } else if t[0] == s[0] && IsSubsequence(t[1..], s[1..]) {
      if u[0] == t[0] && IsSubsequence(u[1..], t[1..]) {
        SubsequenceTrans(u[1..], t[1..], s[1..]);
      } else {
        SubsequenceTrans(u, t[1..], s[1..]);
      }
    } else {
      SubsequenceTrans(u, t, s[1..]);
    }
  }
}
