/** Optional values (Java's nullable references) and results (a value or the exception thrown). */
module Wrappers {

  datatype Option<+T> = None | Some(value: T)

  datatype Result<+R, +E> = Success(value: R) | Failure(error: E)
}
