/** Failure-carrying results: Python's `None` and raised exceptions. */
module Wrappers {

  /** A value or Python's `None`. */
  datatype Option<+T> = None | Some(value: T)

  /** A value, or the exception a call would raise. */
  datatype Result<+T, +E> = Ok(value: T) | Err(error: E)
}
