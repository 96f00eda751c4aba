/** Option and Result values standing in for Python's None and raised exceptions. */
module Wrappers {

  datatype Option<+T> = None | Some(value: T)

  datatype Result<+R, +E> = Success(value: R) | Failure(error: E)

}
