/**
 * First-match linear search: the one search discipline both graph nodes use
 * when they scan a registry or a list of links in declaration order and stop
 * at the first hit.
 */
module Search {
  import opened Wrappers

  /** Index of the first element of `s` that satisfies `p`, or None. */
  function FirstMatch<T>(s: seq<T>, p: T -> bool): (r: Option<nat>)
    ensures r.Some? ==> r.value < |s| && p(s[r.value])
    ensures r.Some? ==> forall j :: 0 <= j < r.value ==> !p(s[j])
    ensures r.None? <==> forall j :: 0 <= j < |s| ==> !p(s[j])
  {
    if s == [] then None
    else if p(s[0]) then Some(0)
    else match FirstMatch(s[1..], p)
      case None => None
      case Some(k) => Some(k + 1)
  }

  /** The scan stops exactly at the first index where `p` holds. */
  lemma FirstMatchAt<T>(s: seq<T>, p: T -> bool, i: nat)
    requires i < |s| && p(s[i])
    requires forall j :: 0 <= j < i ==> !p(s[j])
    ensures FirstMatch(s, p) == Some(i)
  {
  }
}
