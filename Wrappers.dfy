/** Failure-carrying values used in place of the source's null returns and exceptions. */
module Wrappers {

  /** A value that may be absent (the source's `null`). */
  datatype Option<T> = None | Some(value: T)

  /** The outcome of an operation that may throw: a value or the error it reports. */
  datatype Result<T, E> = Success(value: T) | Failure(error: E)

  function Max(a: int, b: int): int
  {
    if a < b then b else a
  }
}
