/** Option and Result values that stand for Java's null and for thrown exceptions. */
module Wrappers {

  /** A possibly-null Java reference: `None` is `null`. */
  datatype Option<+T> = None | Some(value: T)

  /** The outcome of a call that may throw; `Failure` carries the exception. */
  datatype Result<+R, +E> = Success(value: R) | Failure(error: E) {

    predicate IsFailure() {
      Failure?
    }

    function PropagateFailure<U>(): Result<U, E>
      requires Failure?
    {
      Failure(error)
    }

    function Extract(): R
      requires Success?
    {
      value
    }
  }
}
