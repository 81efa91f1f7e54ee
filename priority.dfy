/**
 * Priority chains: an `if / else if` cascade over candidates that may or may
 * not be present picks the first one present.  This module states that choice
 * once, as a reference definition the concrete cascades are proved against.
 */
module Priority {
  import opened Wrappers

  /** The first candidate that is present, in priority order. */
  function FirstSome<T>(candidates: seq<Option<T>>): (r: Option<T>)
    ensures r.None? <==> forall i | 0 <= i < |candidates| :: candidates[i].None?
    ensures r.Some? ==>
      exists i | 0 <= i < |candidates| ::
        candidates[i] == r && forall j | 0 <= j < i :: candidates[j].None?
  {
    if candidates == [] then None
    else if candidates[0].Some? then candidates[0]
    else
      FirstSome(candidates[1..])
  }

  /** Nothing ranked before position `k` is present, and position `k` is: then it is chosen. */
  lemma FirstSomeAt<T>(candidates: seq<Option<T>>, k: nat)
    requires k < |candidates| && candidates[k].Some?
    requires forall j | 0 <= j < k :: candidates[j].None?
    ensures FirstSome(candidates) == candidates[k]
  {
  }
}
