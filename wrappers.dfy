/** Option and Result, the two shapes a decoding step produces. */
module Wrappers {

  datatype Option<+T> = None | Some(value: T)

  /** A Result is failure-compatible, so `var v :- e; body` propagates a Failure. */
  datatype Result<+T, +E> = Success(value: T) | Failure(error: E) {

    predicate IsFailure() {
      Failure?
    }

    function PropagateFailure<U>(): Result<U, E>
      requires Failure?
    {
      Failure(error)
    }

    function Extract(): T
      requires Success?
    {
      value
    }
  }
}
