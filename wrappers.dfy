/** Option and Result, the shapes the model uses for pandas' missing values (NaN)
    and for the errors the services raise. */
module Wrappers {

  /** A value that may be missing: `None` stands for NaN in a pandas column. */
  datatype Option<+T> = None | Some(value: T)

  /** The outcome of an operation that can raise. */
  datatype Result<+T, +E> = Success(value: T) | Failure(error: E)
}
