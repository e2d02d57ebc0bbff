/** Optional values and results with an error message, used across the model. */
module Wrappers {

  /** An optional value: JavaScript's `undefined`/`null` versus a present value. */
  datatype Option<+T> = None | Some(value: T)

  /** The outcome of an operation that may throw: a value, or the thrown message. */
  datatype Result<+T> = Success(value: T) | Failure(message: string)
}
