/** Option and Result, the two failure-carrying shapes the model uses for
    values that may be absent (`undefined` in the source) and for operations
    that either produce a value or throw. */
module Wrappers {

  datatype Option<+T> = None | Some(value: T)

  datatype Result<+T, +E> = Success(value: T) | Failure(error: E)
}
