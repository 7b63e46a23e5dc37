/** Wrappers shared by the provider models. */
module Wrappers {

  /** A value that may be missing: Ruby's `nil` against a present value. */
  datatype Option<+T> = None | Some(value: T) {
    /** The value, or `default` when missing (Ruby's `x || default` when `x` is never `false`). */
    function GetOr(default: T): T {
      match this
      case Some(v) => v
      case None => default
    }
  }

  /** A computed value or the error that was raised instead. */
  datatype Result<+T, +E> = Success(value: T) | Failure(error: E)

  /** Completion of a command that returns nothing useful, or the error it raised. */
  datatype Outcome<+E> = Pass | Fail(error: E)
}
