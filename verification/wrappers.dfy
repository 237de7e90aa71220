/** Failure-carrying values shared by every module of the model. */
module Wrappers {

  /** An optional value. In a table cell, `None` stands for a missing entry (NaN). */
  datatype Option<+T> = None | Some(value: T)

  /** The outcome of an operation that may raise: a value, or the error it raised. */
  datatype Result<+T, +E> = Success(value: T) | Failure(error: E)
}
