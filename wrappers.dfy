/** Option and Result: a missing value (SQL NULL, JavaScript undefined) and an
    operation that either yields a value or stops with a message. */
module Wrappers {

  datatype Option<+T> = None | Some(value: T)

  datatype Result<+R, +E> = Success(value: R) | Failure(error: E)
}
