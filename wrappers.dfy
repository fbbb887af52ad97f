/** Optional values and error-or-value results, as the source's `T | null`,
    `T | undefined` and Go's `(value, error)` pairs. */
module Wrappers {

  datatype Option<+T> = None | Some(value: T)

  datatype Result<+R, +E> = Success(value: R) | Failure(error: E)
}
