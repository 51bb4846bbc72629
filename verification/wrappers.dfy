/** Failure-compatible wrappers shared by every module of the model, and the
    Python exceptions the modelled code can raise. */
module Wrappers {

  /** An optional value: Python's `None` versus a present value. */
  datatype Option<+T> = None | Some(value: T) {

    predicate IsFailure() {
      None?
    }

    function PropagateFailure<U>(): Option<U>
      requires None?
    {
      None
    }

    function Extract(): T
      requires Some?
    {
      value
    }

    /** The present value, or `default` when there is none. */
    function GetOr(default: T): T {
      match this
      case Some(v) => v
      case None => default
    }
  }

  /** A computation that either returns a value or raises. */
  datatype Result<+T, +E> = Ok(value: T) | Err(error: E) {

    predicate IsFailure() {
      Err?
    }

    function PropagateFailure<U>(): Result<U, E>
      requires Err?
    {
      Err(error)
    }

    function Extract(): T
      requires Ok?
    {
      value
    }

    /** Applies `f` to a success value; an error passes through. */
    function MapOk<U>(f: T -> U): Result<U, E>
    {
      match this
      case Ok(v) => Ok(f(v))
      case Err(e) => Err(e)
    }
  }

  /** The Python exceptions the modelled code raises, by class. */
  datatype PyError =
    | ValueError(message: string)
    | KeyError(key: string)
    | IndexError
    | TypeError
    | AttributeError
    | NotImplementedError(message: string)
    | AssertionError(message: string)
}
