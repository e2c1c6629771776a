/** Optional values and results with an error, as used throughout the model. */
module Wrappers {

  /** A value that may be missing (`undefined`, `null` or an absent key in the source). */
  datatype Option<+T> = None | Some(value: T) {
    function GetOr(default: T): T {
      match this
      case Some(v) => v
      case None => default
    }
  }

  /** The outcome of a step that may throw. */
  datatype Result<+T, +E> = Success(value: T) | Failure(error: E)
}
