/** Failure-compatible wrappers used throughout the model: `Option` stands for a
    PHP value that may be `null`, `Result` for a call that either returns a
    value or throws. */
module Wrappers {

  /** `None` is PHP's `null`; `Some(v)` is a value that is set. */
  datatype Option<+T> = None | Some(value: T) {

    predicate IsFailure() {
      None?
    }

    function PropagateFailure<U>(): Option<U>
      requires None?
    {
      None
    }

    function Extract(): T
      requires Some?
    {
      value
    }
  }

  /** Either the value a call returns or the error it throws. */
  datatype Result<+R, +E> = Success(value: R) | Failure(error: E) {

    predicate IsFailure() {
      Failure?
    }

    function PropagateFailure<U>(): Result<U, E>
      requires Failure?
    {
      Failure(error)
    }

    function Extract(): R
      requires Success?
    {
      value
    }
  }
}
