/** `Option` and `Result`, shared by the profiler, call-tree and report modules. */
module Wrappers {

  /** A value that may be absent (Python's `Optional`). */
  datatype Option<+T> = None | Some(value: T)

  /** The outcome of an operation that either succeeds with a value or raises. */
  datatype Result<+R, +E> = Success(value: R) | Failure(error: E)
}
