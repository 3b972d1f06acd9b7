/** Failure-carrying values used in place of Python's None and exceptions. */
module Wrappers {

  /** Python's optional argument: `None` or a value. */
  datatype Option<+T> = None | Some(value: T)

  /** A computation that either returns a value or raises an error. */
  datatype Result<+T, +E> = Ok(value: T) | Err(error: E)

  /** A computation run for its effect that either completes or raises an error. */
  datatype Outcome<+E> = Pass | Fail(error: E)
}
