/** Failure-compatible wrappers shared by every module of the model. */
module Wrappers {

  /** An optional value: `None` stands for JavaScript's `null`, `undefined` or `NaN` results. */
  datatype Option<+T> = None | Some(value: T)

  /** A value or the error the source would throw instead of returning. */
  datatype Result<+T, +E> = Success(value: T) | Failure(error: E)
}
