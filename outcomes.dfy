/** Optional values, results with an error value, and the outcome of a call
    into an external runtime (a value, or a thrown error with its message). */
module Outcomes {

  /** A value that may be absent: a missing storage key, a null reference. */
  datatype Option<+T> = None | Some(value: T) {
    function GetOr(default: T): T {
      match this
      case Some(v) => v
      case None => default
    }
  }

  /** The result of an operation that can fail with an error of type E. */
  datatype Result<+T, +E> = Ok(value: T) | Err(error: E) {
    predicate IsFailure() {
      Err?
    }

    function PropagateFailure<U>(): Result<U, E>
      requires Err?
    {
      Err(error)
    }

    function Extract(): T
      requires Ok?
    {
      value
    }
  }

  /** How a call into a runtime we cannot see settled: it returned a value or
      threw an error. An error without a message is modelled by the empty
      message, which no `includes` test matches. */
  datatype Attempt<+T> = Returned(value: T) | Threw(message: string)
}
