/** Option and Result datatypes used across the model for values Python
    represents as None and for Python exceptions. */
module Wrappers {

  datatype Option<+T> = None | Some(value: T)

  /** The Python exceptions the profiled code can raise. */
  datatype Error =
    | ZeroDivision                 // `x / len(col)` on a zero-row column
    | Unpack(got: nat)             // `a, b = s` where `len(s) != 2`

  datatype Result<+T> = Ok(value: T) | Err(error: Error) {
    predicate IsFailure() { Err? }

    function PropagateFailure<U>(): Result<U>
      requires Err?
    {
      Err(error)
    }

    function Extract(): T
      requires Ok?
    {
      value
    }
  }
}
