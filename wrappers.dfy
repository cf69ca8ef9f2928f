/** Optional values and results with an error, shared by every module of the model. */
module Wrappers {

  /** Python's `None` / JavaScript's `undefined` versus a present value. */
  datatype Option<+T> = None | Some(value: T)

  /** A value, or the error the source raises instead of returning one. */
  datatype Result<+R, +E> = Success(value: R) | Failure(error: E)
}
