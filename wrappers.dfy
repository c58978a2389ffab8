/** Failure-carrying values used in place of the HTTP error responses. */
module Wrappers {

  datatype Option<+T> = None | Some(value: T)

  /** An outcome that carries a value on success. */
  datatype Result<+R, +E> = Success(value: R) | Failure(error: E)

  /** An outcome that carries no value on success. */
  datatype Outcome<+E> = Pass | Fail(error: E)
}
