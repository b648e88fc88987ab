/** Ruby's `nil` and raised errors, made explicit. */
module Wrappers {

  /** A value that may be absent (`nil` in the original). */
  datatype Option<+T> = None | Some(value: T) {

    predicate IsFailure() {
      None?
    }

    function PropagateFailure<U>(): Option<U>
      requires None?
    {
      None
    }

    function Extract(): T
      requires Some?
    {
      value
    }

    /** The value, or `default` when absent (Ruby's `x || default`). */
    function GetOr(default: T): T {
      match this
      case Some(v) => v
      case None => default
    }
  }

  /** The outcome of an operation that can raise. */
  datatype Result<+T, +E> = Success(value: T) | Failure(error: E)
}
