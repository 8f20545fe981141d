/** Option and Result, the failure-carrying values used throughout the model. */
module Wrappers {

  datatype Option<+T> = None | Some(value: T)

  /** The outcome of an operation that may fail with an error of type `E`
      (a Rust `Result`, or a Kotlin call that may throw). */
  datatype Result<+T, +E> = Success(value: T) | Failure(error: E)
}
