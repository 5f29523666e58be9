/** Option and Result, used throughout the model: Go's nil pointers
    and (value, error) pairs become Option and Result values. */
module Wrappers {

  datatype Option<+T> = None | Some(value: T)

  datatype Result<+T, +E> = Success(value: T) | Failure(error: E)
}
