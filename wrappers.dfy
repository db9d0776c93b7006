/** Failure-carrying result types shared by the date normaliser and the row pipeline. */
module Wrappers {

  /** A value that may be missing: `None` stands for a missing cell (NaN). */
  datatype Option<+T> = None | Some(value: T)

  /** The outcome of a step that either produces a value or fails with an error. */
  datatype Result<+T, +E> = Ok(value: T) | Err(error: E)
}
