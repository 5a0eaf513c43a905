/** `Promise.all` over promises whose outcomes are already known: it resolves with every
    value in input order when all of them resolve, and rejects when any rejects. Which
    rejection reason wins depends on timing; every caller here discards it, so a
    rejection is just None. */
module Promises {
  import opened Wrappers

  function All<T>(outcomes: seq<Option<T>>): (r: Option<seq<T>>)
    ensures r.Some? <==> forall i :: 0 <= i < |outcomes| ==> outcomes[i].Some?
    ensures r.Some? ==> |r.value| == |outcomes|
    ensures r.Some? ==> forall i :: 0 <= i < |outcomes| ==> r.value[i] == outcomes[i].value
  {
    if outcomes == [] then Some([])
    else
      match (outcomes[0], All(outcomes[1..]))
      case (Some(x), Some(xs)) => Some([x] + xs)
      case _ => None
  }
}
