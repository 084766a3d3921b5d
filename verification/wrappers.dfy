/**
 * Optional values and results. The Python library signals failure by raising
 * exceptions; the model returns them as `Err` values instead, one `Error`
 * constructor per exception class that the modelled code can raise.
 */
module Wrappers {

  datatype Option<+T> = None | Some(value: T) {
    predicate IsFailure() { None? }

    function PropagateFailure<U>(): Option<U>
      requires None?
    {
      None
    }

    function Extract(): T
      requires Some?
    {
      value
    }
  }

  /** The Python exception classes the modelled code raises. */
  datatype Error =
    | IndexError
    | KeyError
    | TypeError
    | AttributeError
    | AssertionError
    | ValueError(msg: string)
      /** A bare `raise Exception(msg)`. */
    | Failure(msg: string)
      /** A Python behaviour the model does not cover (the text `repr` produces, for one). */
    | Unmodelled(what: string)

  datatype Result<+T> = Ok(value: T) | Err(error: Error) {
    predicate IsFailure() { Err? }

    function PropagateFailure<U>(): Result<U>
      requires Err?
    {
      Err(error)
    }

    function Extract(): T
      requires Ok?
    {
      value
    }
  }
}
