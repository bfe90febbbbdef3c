/** Failure-compatible wrappers: `Option` for Java's `Optional`, and
    `Result` for an operation that either returns or throws. */
module Wrappers {

  /** An optional value: `Optional.empty()` or `Optional.of(value)`. */
  datatype Option<+T> = None | Some(value: T)

  /** The outcome of a service call: a value, or the error it raised. */
  datatype Result<+T, +E> = Success(value: T) | Failure(error: E) {

    predicate IsFailure() {
      Failure?
    }

    function PropagateFailure<U>(): Result<U, E>
      requires Failure?
    {
      Failure(error)
    }

    function Extract(): T
      requires Success?
    {
      value
    }
  }
}
