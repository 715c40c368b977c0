/** Option and Result, the two failure-aware wrappers the model uses for the
    source's None values and raised exceptions. */
module Wrappers {

  datatype Option<+T> = None | Some(value: T)

  datatype Result<+T, +E> = Success(value: T) | Failure(error: E)
}
