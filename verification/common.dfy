/** Small failure-compatible wrappers shared by the whole model. */
module Common {

  /** An optional value, as Python's `None` versus a present value. */
  datatype Option<+T> = None | Some(value: T)

  /** Either a value or the error that aborts the operation. */
  datatype Result<+T, +E> = Ok(value: T) | Err(error: E) {

    predicate IsFailure() {
      Err?
    }

    function PropagateFailure<U>(): Result<U, E>
      requires Err?
    {
      Err(error)
    }

    function Extract(): T
      requires Ok?
    {
      value
    }
  }
}
