/** Failure-compatible result types shared by the other modules. */
module Wrappers {

  datatype Option<+T> = None | Some(value: T)

  /** The two Python exceptions the modelled code can raise. */
  datatype Error = IndexError | KeyError

  /** A value, or the exception that Python would have raised instead. */
  datatype Result<+T> = Ok(value: T) | Err(error: Error) {
    predicate IsFailure() {
      Err?
    }

    function PropagateFailure<U>(): Result<U>
      requires Err?
    {
      Err(error)
    }

    function Extract(): T
      requires Ok?
    {
      value
    }
  }

  /** The outcome of a call that returns nothing but may raise. */
  datatype Outcome = Pass | Fail(error: Error)
}
