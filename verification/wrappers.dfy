/** Failure-compatible Option and Result types, used for Go's nil pointers and
    (value, error) returns. */
module Wrappers {

  /** A value that may be absent; stands for a Go `*string`. */
  datatype Option<+T> = None | Some(value: T) {

    /** The value if present, otherwise `default`. */
    function GetOr(default: T): T {
      match this
      case Some(v) => v
      case None => default
    }
  }

  /** Either a value or an error; stands for Go's `(T, error)` pair. */
  datatype Result<+T, +E> = Success(value: T) | Failure(error: E) {

    predicate IsFailure() {
      Failure?
    }

    function PropagateFailure<U>(): Result<U, E>
      requires Failure?
    {
      Failure(error)
    }

    function Extract(): T
      requires Success?
    {
      value
    }

    /** The value on success, otherwise `default`; models `x, _ := f()`
        where the caller ignores the error. */
    function GetOr(default: T): T {
      match this
      case Success(v) => v
      case Failure(_) => default
    }
  }
}
