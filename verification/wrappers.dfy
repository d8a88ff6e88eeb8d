/** Option and Result datatypes used throughout the model in place of
    Python's `None` and raised exceptions. */
module Wrappers {

  /** A value that may be absent: Python's `Optional[T]`, SQL's nullable column. */
  datatype Option<+T> = None | Some(value: T)

  /** Either a computed value or the error that would have been raised. */
  datatype Result<+T, +E> = Success(value: T) | Failure(error: E)
}
