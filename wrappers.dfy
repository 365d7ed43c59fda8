/** Option and Result values standing in for Go's nil pointers and (value, error) pairs. */
module Wrappers {

  datatype Option<+T> = None | Some(value: T)

  datatype Result<+R, +E> = Success(value: R) | Failure(error: E)
}
