/** Option and Result, with the members Dafny needs for `:-`, and the
    exceptions the modelled Python code raises or lets escape. */
module Wrappers {

  datatype Option<+T> = None | Some(value: T) {
    predicate IsFailure() { None? }

    function PropagateFailure<U>(): Option<U>
      requires None?
    {
      None
    }

    function Extract(): T
      requires Some?
    {
      value
    }
  }

  datatype Result<+R, +E> = Success(value: R) | Failure(error: E) {
    predicate IsFailure() { Failure? }

    function PropagateFailure<U>(): Result<U, E>
      requires Failure?
    {
      Failure(error)
    }

    function Extract(): R
      requires Success?
    {
      value
    }
  }

  /** A Python exception that nothing in the modelled code catches: it ends
      the running entry point. */
  datatype Fault =
    | ValueError(message: string)      // strptime mismatch, datetime(...) field out of range
    | TypeError(message: string)       // arithmetic or len() on None
    | OverflowError(message: string)   // datetime arithmetic leaving years 1..9999
    | AttributeError(message: string)  // .group on a failed re.search, .message on an exception
    | EOFError(message: string)        // input() at end of the command stream
}
