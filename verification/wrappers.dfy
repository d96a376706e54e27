/** Optional values: `None` stands for JavaScript's `undefined` and `NaN`. */
module Wrappers {
  datatype Option<+T> = None | Some(value: T)

  /** The outcome of a step that may throw: the value, or the thrown message. */
  datatype Result<+T> = Success(value: T) | Failure(message: string)
}
