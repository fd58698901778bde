/** Failure-carrying results used in place of Python exceptions. */
module Outcomes {

  datatype Option<+T> = None | Some(value: T)

  /** A computation that produced a value or raised an error. */
  datatype Result<+T, +E> = Ok(value: T) | Err(error: E)

  /** A check that either passes or raises an error (a Python function returning None). */
  datatype Outcome<+E> = Pass | Fail(error: E)
}
