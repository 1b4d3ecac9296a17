/** Failure-carrying results. Every Ruby `raise`/`fail` of the plugin becomes an
    error value carrying the exception message. */
module Wrappers {

  datatype Option<+T> = None | Some(value: T)

  /** A computation that yields a value or fails with a message. */
  datatype Result<+T> = Ok(value: T) | Err(error: string)

  /** A computation run for its effect that passes or fails with a message. */
  datatype Outcome = Pass | Fail(error: string)
}
