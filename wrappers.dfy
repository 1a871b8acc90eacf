/** Option, Result and Outcome values for lookups that may miss and operations that may fail. */
module Wrappers {

  /** A lookup result: `None` is a record the database did not find. */
  datatype Option<+T> = None | Some(value: T)

  /** The outcome of an operation that produces a value or fails with an error. */
  datatype Result<+T, +E> = Ok(value: T) | Err(error: E)

  /** The outcome of an operation that produces no value. */
  datatype Outcome<+E> = Pass | Fail(error: E)
}
