/** Ends of sequences. */
module Sequences {

  /** The last min(n, k) elements: what a ring of k slots still holds. */
  function Last<T>(s: seq<T>, k: nat): seq<T> {
    if |s| <= k then s else s[|s| - k..]
  }

  function First<T>(s: seq<T>, k: nat): seq<T> {
    if |s| <= k then s else s[..k]
  }

  lemma LastReads<T>(s: seq<T>, k: nat)
    ensures |Last(s, k)| == (if |s| < k then |s| else k) && Last(s, k) == s[|s| - |Last(s, k)|..]
  {
  }
}
