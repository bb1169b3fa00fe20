/** Optional values and results with an error, used for the absent fields of the
    payload and for the exceptions the transformation can raise. */
module Wrappers {

  /** A value that may be absent; JavaScript's `null` and `undefined` both map to `None`. */
  datatype Option<+T> = None | Some(value: T)

  /** The outcome of an operation that either produces a value or fails with an error. */
  datatype Result<+T, +E> = Success(value: T) | Failure(error: E)
}
