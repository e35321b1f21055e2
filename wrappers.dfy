/** Optional values and success-or-error results shared by the other modules. */
module Wrappers {

  /** A value that may be missing: a dictionary lookup that found nothing, a header that was not sent. */
  datatype Option<+T> = None | Some(value: T) {

    /** The value, or `default` when there is none (Python's `d.get(key, default)`). */
    function GetOr(default: T): T {
      match this
      case Some(v) => v
      case None => default
    }
  }

  /** The outcome of a step that either produces a value or fails with a message. */
  datatype Result<+R, +E> = Success(value: R) | Failure(error: E)
}
