/** Optional values, the Python exceptions that can reach the tracker's
    top-level handler, and a failure-compatible result type carrying them. */
module Outcomes {

  datatype Option<+T> = None | Some(value: T)

  /** The exceptions the tracker's own code can raise. The text Python
      prints for each (`str(exception)`) is runtime-specific and is not
      modelled here; the orchestrator takes it as a parameter. */
  datatype Exception =
    | KeyError(key: string)            // a dictionary subscript with a missing key
    | IndexError(index: int)           // a list subscript past the end
    | TypeError(operand: string)       // subscripting a value of the named type with a string
    | UnboundLocalError(name: string)  // reading a local variable that was never assigned

  /** The outcome of a computation that may raise: the value, or the
      exception that escaped it. Usable with `:-`. */
  datatype Result<+T> = Ok(value: T) | Err(error: Exception) {

    predicate IsFailure() {
      Err?
    }

    function PropagateFailure<U>(): Result<U>
      requires Err?
    {
      Err(error)
    }

    function Extract(): T
      requires Ok?
    {
      value
    }
  }
}
