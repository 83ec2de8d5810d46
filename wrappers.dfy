/** Failure-compatible wrappers used by the model: Option for values that may be
    absent (pandas' NaN, Python's None) and Result for operations that raise. */
module Wrappers {

  datatype Option<+T> = None | Some(value: T)

  datatype Result<+T, +E> = Success(value: T) | Failure(error: E)
}
