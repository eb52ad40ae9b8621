/** The two failure-carrying shapes the model uses: a match that may be
    absent, and a conversion that may raise. */
module Wrappers {

  datatype Option<+T> = None | Some(value: T)

  datatype Result<+T, +E> = Success(value: T) | Failure(error: E)
}
