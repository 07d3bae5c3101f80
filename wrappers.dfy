/** The optional value used throughout the model: PHP's `null` versus a present value. */
module Wrappers {

  datatype Option<+T> = None | Some(value: T)

  /** PHP's null-coalescing operator `a ?? b`: the left operand unless it is null. */
  function Coalesce<T>(a: Option<T>, b: Option<T>): (r: Option<T>)
    ensures a.Some? ==> r == a
    ensures a.None? ==> r == b
  {
    if a.Some? then a else b
  }
}
