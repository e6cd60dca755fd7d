/** Option and Result, the two shapes the model uses for absent values and failed lookups. */
module Wrappers {

  datatype Option<+T> = None | Some(value: T)

  datatype Result<+R, +E> = Success(value: R) | Failure(error: E)
}
