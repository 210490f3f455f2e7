/** The failure-carrying result types the model uses for the source's
    exceptions and sentinel values. */
module Wrappers {

  datatype Option<T> = None | Some(value: T)

  datatype Result<T, E> = Success(value: T) | Failure(error: E)
}
