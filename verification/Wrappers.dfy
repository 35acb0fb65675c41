/** The two result types shared by the model. */
module Wrappers {
  datatype Option<+T> = None | Some(value: T)

  /** A value, or the exception the source throws instead. */
  datatype Result<+T, +E> = Success(value: T) | Failure(error: E)
}
