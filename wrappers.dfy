/** Small helpers shared by the modules of this model: an optional value and
    the truthiness test JavaScript's `||` applies to string values. */
module Wrappers {

  /** A value that may be absent: a missing header, an absent JSON field,
      an `undefined` theme. */
  datatype Option<+T> = None | Some(value: T)

  /** JavaScript truthiness of a value of type `string | null | undefined`:
      absent values and the empty string are falsy, every other string is truthy. */
  predicate Truthy(o: Option<string>) {
    o.Some? && o.value != ""
  }

  /** `a || b || ... || fallback` over optional strings: the first truthy
      candidate, or `fallback` when none is truthy. */
  function FirstTruthy(candidates: seq<Option<string>>, fallback: string): (r: string)
    ensures (forall i :: 0 <= i < |candidates| ==> !Truthy(candidates[i])) ==> r == fallback
    ensures (exists i :: 0 <= i < |candidates| && Truthy(candidates[i])) ==>
              exists i :: 0 <= i < |candidates| && Truthy(candidates[i]) && r == candidates[i].value &&
                forall j :: 0 <= j < i ==> !Truthy(candidates[j])
    ensures r == fallback || r != ""
  {
    if candidates == [] then fallback
    else if Truthy(candidates[0]) then candidates[0].value
    else FirstTruthy(candidates[1..], fallback)
  }
}
