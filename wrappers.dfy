/** Option and result datatypes used across the model, and JavaScript's `||` default on strings. */
module Wrappers {

  /** A value or its absence; `None` stands for JavaScript's `null` and `undefined`. */
  datatype Option<+T> = None | Some(value: T)

  /** Success, or failure with an error value (a thrown `Error`). */
  datatype Outcome<+E> = Pass | Fail(error: E)

  /** A value, or the error a rejected promise carries. */
  datatype Result<+T, +E> = Success(value: T) | Failure(error: E)

  /** JavaScript's `x || d` on an optional string: `undefined`, `null` and `""` give `d`. */
  function OrString(x: Option<string>, d: string): (r: string)
    ensures x.Some? && x.value != "" ==> r == x.value
    ensures !(x.Some? && x.value != "") ==> r == d
    ensures r == d || (x.Some? && r == x.value)
    ensures r == "" ==> d == ""
  {
    if x.Some? && x.value != "" then x.value else d
  }
}
