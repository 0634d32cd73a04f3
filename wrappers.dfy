/** Failure-carrying datatypes used for the exceptions and "None" returns of the system. */
module Wrappers {

  datatype Option<+T> = None | Some(value: T)

  /** The outcome of a validator that either passes or raises with a message. */
  datatype Outcome<+E> = Pass | Fail(error: E)

  datatype Result<+R, +E> = Ok(value: R) | Err(error: E)
}
