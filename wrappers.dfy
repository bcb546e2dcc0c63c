/** Option and Result, the failure-carrying values the scripts produce in place
    of `None` and of a raised `ValueError`. */
module Wrappers {

  datatype Option<+T> = None | Some(value: T)

  datatype Result<+R, +E> = Success(value: R) | Failure(error: E)
}
