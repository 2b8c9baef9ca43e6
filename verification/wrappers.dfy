/** Failure-carrying values used by the planner's early exits. */
module Wrappers {

  /** A value that may be absent, like a JavaScript `undefined` result. */
  datatype Option<+T> = None | Some(value: T)

  /** The outcome of an action that either produces a value or stops with an error. */
  datatype Result<+T, +E> = Ok(value: T) | Err(error: E)
}
