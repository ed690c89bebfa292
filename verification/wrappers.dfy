/** Failure-carrying datatypes shared by the store and the request handlers. */
module Wrappers {

  /** A value that may be absent (JavaScript `undefined` or a missing row). */
  datatype Option<+T> = None | Some(value: T)

  /** The outcome of a store operation: the new table, or the error the
      operation returns instead of writing. */
  datatype Result<+R, +E> = Success(value: R) | Failure(error: E)
}
