/** Failure-carrying results used by the sizing engine in place of exceptions. */
module Wrappers {

  /** A value that may be absent. */
  datatype Option<+T> = None | Some(value: T)

  /** Either a computed value or the error the operation raised instead. */
  datatype Result<+T, +E> = Ok(value: T) | Err(error: E)
}
