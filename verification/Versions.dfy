/** Positions in the ordered list of releases. */
module Versions {
  import opened Wrappers

  /** `tuple.index`; None when it raises. */
  function IndexOf(xs: seq<string>, x: string): (r: Option<nat>)
    ensures r.Some? ==> r.value < |xs| && xs[r.value] == x
    ensures r.Some? ==> forall k :: 0 <= k < r.value ==> xs[k] != x
    ensures r.None? <==> x !in xs
  {
    if xs == [] then None
    else if xs[0] == x then Some(0)
    else
      match IndexOf(xs[1..], x)
      case None => None
      case Some(i) =>
        assert forall k :: 0 < k < i + 1 ==> xs[k] == xs[1..][k - 1];
        Some(i + 1)
  }

  lemma IndexOfMember(xs: seq<string>, x: string)
    requires x in xs
    ensures IndexOf(xs, x).Some?
  {}
}
