/** Optional values and success-or-failure results, used for JavaScript's
    `undefined`/`null` and for the exceptions the modelled code throws. */
module Wrappers {

  datatype Option<+T> = None | Some(value: T)

  datatype Result<+R, +E> = Success(value: R) | Failure(error: E)
}
