/** Optional values and success/failure results used throughout the model. */
module Wrappers {

  /** A value that may be absent (Python's `None`, a missing file, an empty match list). */
  datatype Option<+T> = None | Some(value: T)

  /** The outcome of a step that may raise instead of returning. */
  datatype Result<+R, +E> = Success(value: R) | Failure(error: E)
}
