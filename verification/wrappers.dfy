/** Optional values and error-or-value results, for JavaScript's `undefined`/`null` and thrown errors. */
module Wrappers {

  /** A value that may be absent (`undefined` or `null` in the source). */
  datatype Option<+T> = None | Some(value: T)

  /** The outcome of a call that may throw: either a value or the thrown message. */
  datatype Result<+T, +E> = Success(value: T) | Failure(error: E)
}
