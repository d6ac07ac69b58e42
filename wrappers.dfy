/** Option and Result: values that may be absent (Python `None`, a pandas null)
    and computations that may raise. */
module Wrappers {

  datatype Option<+T> = None | Some(value: T)

  datatype Result<+T, +E> = Ok(value: T) | Err(error: E)

  /** Python truthiness of an optional string: `None` and `''` are false. */
  predicate Truthy(s: Option<string>) {
    s.Some? && s.value != ""
  }
}
