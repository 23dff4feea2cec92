/** Failure-carrying values shared by the modules of this model. */
module Wrappers {

  /** A value that may be absent; Python's `None` where a function may return nothing. */
  datatype Option<+T> = None | Some(value: T)

  /** Either a value or the error (Python exception) that took its place. */
  datatype Result<+R, +E> = Success(value: R) | Failure(error: E)
}
