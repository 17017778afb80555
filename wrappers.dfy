/** Optional values and success/failure results used across the quiz model. */
module Wrappers {

  /** A value that may be absent (a parse that failed, a row that was not found). */
  datatype Maybe<+T> = Nothing | Just(value: T)

  /** Either a value or an error describing why there is none. */
  datatype Result<+T, +E> = Ok(value: T) | Err(error: E)
}
