/** Option and Result, the failure-carrying values the model returns where the
    source returns None, False or an error reply. */
module Wrappers {

  datatype Option<+T> = None | Some(value: T)

  datatype Result<+R, +E> = Success(value: R) | Failure(error: E)
}
