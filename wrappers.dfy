/** Optional values and results: Python's `None`-or-value and raised-or-returned. */
module Wrappers {

  /** A value that may be absent (Python `None`). */
  datatype Option<+T> = None | Some(value: T)

  /** The result of a call that either returns a value or raises an exception. */
  datatype Result<+R, +E> = Success(value: R) | Failure(error: E)
}
