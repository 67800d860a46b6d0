/** Optional values and results with an error message. */
module Wrappers {

  /** A Python value that may be `None`. */
  datatype Option<T> = None | Some(value: T)

  /** A value, or the message of the `ValueError` raised instead. */
  datatype Result<T> = Success(value: T) | Failure(error: string)
}
