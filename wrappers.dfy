/** Option and Result values used for missing storage entries and for the
    exceptions the store's write path propagates to its callers. */
module Wrappers {

  datatype Option<+T> = None | Some(value: T)

  datatype Result<+R, +E> = Success(value: R) | Failure(error: E)

  /** Outcome of an operation that returns nothing on success (a `Promise<void>`). */
  datatype Outcome<+E> = Pass | Fail(error: E)
}
