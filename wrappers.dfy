/** Optional values and results with a typed failure, used by every controller model. */
module Wrappers {

  /** A value that may be absent: a request field that was not sent, a row that was not found. */
  datatype Option<+T> = None | Some(value: T)

  /** Either a value or the error a controller throws (and `next(err)` forwards). */
  datatype Result<+T, +E> = Success(value: T) | Failure(error: E)
}
