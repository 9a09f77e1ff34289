/** Option and Result, the two failure-carrying datatypes the model uses. */
module Wrappers {

  datatype Option<+T> = None | Some(value: T)

  /** Outcome of a decode: the value, or the error the decoder reports first. */
  datatype Result<+T, +E> = Ok(value: T) | Err(error: E)
  {
    predicate IsFailure() {
      Err?
    }

    function PropagateFailure<U>(): Result<U, E>
      requires Err?
    {
      Err(error)
    }

    function Extract(): T
      requires Ok?
    {
      value
    }
  }
}
