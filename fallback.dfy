/** `fallback(...values)`: the first argument that is not `undefined`. */
module Fallback {
  import opened Js

  /** Scans the arguments in order and returns the first one that is not
      `undefined`; `null` counts as defined. Returns `undefined` when every
      argument is `undefined`, including when there are none. */
  method Fallback<T>(values: seq<Slot<T>>) returns (r: Slot<T>)
    ensures r.Undefined? <==> forall i :: 0 <= i < |values| ==> values[i].Undefined?
    ensures !r.Undefined? ==>
      exists k :: 0 <= k < |values| && values[k] == r && forall j :: 0 <= j < k ==> values[j].Undefined?
    ensures forall k ::
              0 <= k < |values| && !values[k].Undefined? && (forall j :: 0 <= j < k ==> values[j].Undefined?)
              ==> r == values[k]
    ensures |values| > 0 && !values[0].Undefined? ==> r == values[0]
  {
    for i := 0 to |values|
      invariant forall j :: 0 <= j < i ==> values[j].Undefined?
    {
      if !values[i].Undefined? {
        return values[i];
      }
    }
    return Undefined;
  }
}
