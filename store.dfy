/** The document store as the handlers see it: collections kept in natural (insertion) order,
    identifiers, and `findOne`, which answers the first document in that order that matches. */
module Store {
  import opened Wrappers

  /** A document identifier. Identifiers are handed out by the store and never reused. */
  type ObjectId = nat

  /** The position of the first element of `s` that satisfies `p`, as `findOne` returns it. */
  function FirstIndex<T>(s: seq<T>, p: T -> bool): (r: Option<nat>)
    ensures r.Some? ==> r.value < |s| && p(s[r.value])
    ensures r.Some? ==> forall j :: 0 <= j < r.value ==> !p(s[j])
    ensures r.None? ==> forall j :: 0 <= j < |s| ==> !p(s[j])
  {
    if s == [] then None
    else if p(s[0]) then Some(0)
    else match FirstIndex(s[1..], p)
      case None => None
      case Some(k) => Some(k + 1)
  }
}
