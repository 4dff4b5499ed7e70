/** Failure-carrying datatypes used for the Python code's optional values and
    raised exceptions: `None`/value, a returned value or a raised error, and a
    check that either passes or raises. */
module Wrappers {

  datatype Option<+T> = None | Some(value: T)

  /** A computation that returns `value` or raises `error`. */
  datatype Result<+R, +E> = Ok(value: R) | Err(error: E) {
    predicate IsFailure() { Err? }

    function PropagateFailure<U>(): Result<U, E>
      requires Err?
    {
      Err(error)
    }

    function Extract(): R
      requires Ok?
    {
      value
    }
  }

  /** A check that returns nothing or raises `error`. */
  datatype Outcome<+E> = Pass | Fail(error: E)
}
