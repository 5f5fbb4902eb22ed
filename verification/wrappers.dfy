/** Optional values and success/failure results, used wherever the Python code
    reads a key that may be absent or raises an exception that a caller catches. */
module Wrappers {

  /** A value that may be absent: a missing dictionary key, a `None`, an unset form field. */
  datatype Option<+T> = None | Some(value: T) {

    /** The value if present, else `default` (Python's `d.get(key, default)`). */
    function GetOr(default: T): T {
      match this
      case Some(v) => v
      case None => default
    }
  }

  /** The outcome of a step that can raise: `Failure` carries the exception's message. */
  datatype Result<+R, +E> = Success(value: R) | Failure(error: E) {

    predicate IsFailure() {
      Failure?
    }

    function PropagateFailure<U>(): Result<U, E>
      requires Failure?
    {
      Failure(error)
    }

    function Extract(): R
      requires Success?
    {
      value
    }
  }
}
