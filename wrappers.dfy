/** Value and failure-carrying types shared by every module of the model. */
module Wrappers {

  datatype Option<+T> = None | Some(value: T) {
    function GetOr(default: T): T {
      match this
      case Some(v) => v
      case None => default
    }
  }

  /** The Python exceptions that the modelled code lets escape or catches. */
  datatype PyError =
    | KeyError
    | ValueError
    | TypeError
    | IndexError
    | NameError
    | ZeroDivisionError
    | FileNotFoundError
    | StopIteration
    | UnicodeDecodeError

  /** The outcome of a Python call: it returns a value or raises. */
  datatype Outcome<+T> = Returned(value: T) | Raised(error: PyError) {
    predicate IsFailure() { Raised? }

    function PropagateFailure<U>(): Outcome<U>
      requires Raised?
    {
      Raised(error)
    }

    function Extract(): T
      requires Returned?
    {
      value
    }
  }

  /** Entropies and probabilities: Python floats, carried along but never
      computed with, so exact reals stand in for them. */
  type Float = real

  /** Rust's `Result<T, E>`. */
  datatype Result<+T, +E> = Ok(value: T) | Err(error: E)
}
