/** The result of an operation that can raise: a value or the error it raises. */
module Wrappers {
  datatype Result<+T, +E> = Success(value: T) | Failure(error: E)
}
