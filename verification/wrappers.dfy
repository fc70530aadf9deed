/** The Option and Result datatypes used across the model. */
module Wrappers {

  /** A value that may be absent: Kotlin's nullable `T?`. */
  datatype Option<+T> = None | Some(value: T)

  /** Either a value or the error the source would throw instead. */
  datatype Result<+R, +E> = Success(value: R) | Failure(error: E)
}
