/** Optional values and success-or-error results, shared by the transport and the sender. */
module Wrappers {

  /** An optional value: a slot that may be empty (a null reference in the source). */
  datatype Option<+T> = None | Some(value: T)

  /** The outcome of an operation that either succeeds with a value or raises an error. */
  datatype Result<+R, +E> = Success(value: R) | Failure(error: E)
}
