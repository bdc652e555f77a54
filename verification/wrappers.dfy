/** Failure-carrying datatypes shared by the rest of the model. */
module Wrappers {

  /** A value that may be absent: pandas' NaN label, Python's implicit `None` return. */
  datatype Option<+T> = None | Some(value: T)

  /** Either a computed value or the exception the Python code would raise instead. */
  datatype Result<+R, +E> = Success(value: R) | Failure(error: E)
}
