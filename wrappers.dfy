/** Failure-carrying results shared by the other modules. */
module Wrappers {

  datatype Option<+T> = None | Some(value: T)

  /** The value a computation produced, or the error it raised instead. */
  datatype Result<+T, +E> = Ok(value: T) | Err(error: E)
}
