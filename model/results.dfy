/** Outcomes of operations that can raise a Python exception. */
module Results {

  /** The Python exception kinds the modelled code raises. */
  datatype Error = ValueError | KeyError | TypeError | AttributeError | ImportError

  datatype Option<T> = None | Some(value: T)

  datatype Result<T> = Ok(value: T) | Err(error: Error) {
    predicate IsFailure() {
      Err?
    }

    function PropagateFailure<U>(): Result<U>
      requires Err?
    {
      Err(error)
    }

    function Extract(): T
      requires Ok?
    {
      value
    }
  }
}
