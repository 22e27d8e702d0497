/** Result of an operation that can fail: the exceptions the clustering code throws. */
module Wrappers {
  datatype Result<T, E> = Success(value: T) | Failure(error: E)
}
