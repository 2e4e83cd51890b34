/** Optional values and results that carry an error message (the text of a raised exception). */
module Wrappers {

  datatype Option<+T> = None | Some(value: T)

  /** The outcome of a call that either returns a value or raises; `error` is `str(e)`. */
  datatype Result<+T> = Success(value: T) | Failure(error: string)
}
