/** Optional values and fallible results, standing in for Java's `Optional`
    and for the unchecked exceptions the plan nodes throw. */
module Wrappers {

  /** `Optional<T>`: a value that may be absent. */
  datatype Option<+T> = None | Some(value: T)

  /** The outcome of an operation that either builds a value or fails with an error. */
  datatype Result<+R, +E> = Success(value: R) | Failure(error: E)
}
