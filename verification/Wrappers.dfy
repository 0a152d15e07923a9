/** The two failure-aware value types every other module uses. */
module Wrappers {

  datatype Option<+T> = None | Some(value: T)

  /** A Python function that may raise: the value it returns, or the error it raises. */
  datatype Result<+T, +E> = Ok(value: T) | Err(error: E) {

    predicate IsFailure() {
      Err?
    }

    function PropagateFailure<U>(): Result<U, E>
      requires Err?
    {
      Err(error)
    }

    function Extract(): T
      requires Ok?
    {
      value
    }
  }
}
