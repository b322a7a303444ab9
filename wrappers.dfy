/** Option and Result, the failure-carrying values both components return. */
module Wrappers {

  datatype Option<+T> = None | Some(value: T)

  /** `Failure` stands for a raised Python exception. */
  datatype Result<+T, +E> = Success(value: T) | Failure(error: E)
}
