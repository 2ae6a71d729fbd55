/** Small helpers over sequences shared by the other modules. */
module Seqs {

  datatype Option<T> = None | Some(value: T)

  /** The lowest index of `s` whose element satisfies `p`, if any element does.
      This is the shape of every `for x in list: if test: ...; break` search in the facade. */
  function FirstIndex<T>(s: seq<T>, p: T -> bool): (r: Option<nat>)
    ensures r.Some? ==> r.value < |s| && p(s[r.value])
    ensures r.Some? ==> forall j :: 0 <= j < r.value ==> !p(s[j])
    ensures r.None? ==> forall j :: 0 <= j < |s| ==> !p(s[j])
  {
    if s == [] then None
    else if p(s[0]) then Some(0)
    else match FirstIndex(s[1..], p)
      case Some(i) => Some(i + 1)
      case None => None
  }
}
