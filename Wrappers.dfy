/** Option and Result, used for absent HTTP headers and for the exceptions that the
    handlers throw and catch. */
module Wrappers {

  datatype Option<+T> = None | Some(value: T)

  datatype Result<+R, +E> = Success(value: R) | Failure(error: E)
}
