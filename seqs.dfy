/** Searches and uniqueness over sequences, shared by the reservation table and the calendar. */
module Seqs {
  import opened Wrappers

  /** The position of the first element of `s` that satisfies `p`, if any. */
  function FirstWhere<T>(s: seq<T>, p: T -> bool): (i: Option<nat>)
    ensures i.Some? ==> i.value < |s| && p(s[i.value])
    ensures i.Some? ==> forall k :: 0 <= k < i.value ==> !p(s[k])
    ensures i.None? <==> forall k :: 0 <= k < |s| ==> !p(s[k])
  {
    if s == [] then None
    else if p(s[0]) then Some(0)
    else match FirstWhere(s[1..], p)
      case None => None
      case Some(j) => Some(j + 1)
  }

  /** No two elements of `s` share a key. */
  ghost predicate DistinctBy<T, K>(s: seq<T>, key: T -> K) {
    forall i, j :: 0 <= i < j < |s| ==> key(s[i]) != key(s[j])
  }
}
