/** Option and Result, for the source's missing values and raised exceptions. */
module Wrappers {
  datatype Option<+T> = None | Some(value: T)

  datatype Result<+T, +E> = Ok(value: T) | Err(error: E)

  /** The value, if any, as a sequence of length at most one. */
  function ToSeq<T>(o: Option<T>): (s: seq<T>)
    ensures |s| <= 1
  {
    if o.Some? then [o.value] else []
  }
}
