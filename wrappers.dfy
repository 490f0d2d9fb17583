/** Failure-carrying results, used where the original program raises an exception. */
module Wrappers {
  datatype Result<T, E> = Ok(value: T) | Err(error: E)
}
