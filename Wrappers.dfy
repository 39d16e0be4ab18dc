/** Optional values and store results shared by the session and field-editor models. */
module Wrappers {

  /** A value that may be missing: TypeScript's `undefined`/`null`. */
  datatype Option<+T> = None | Some(value: T)

  /** The outcome of a store call that either returns a value or throws. */
  datatype Result<+R, +E> = Success(value: R) | Failure(error: E)
}
