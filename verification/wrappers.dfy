/** Failure-carrying results for the fallible operations of the model. */
module Wrappers {

  datatype Option<+T> = None | Some(value: T)

  /** A value, or the error the Go code would return beside a zero value. */
  datatype Result<+T, +E> = Ok(value: T) | Err(error: E)
}
