/** Optional values and Python exceptions as values. */
module Results {

  datatype Option<+T> = None | Some(value: T)

  /** The exception classes the modelled code can raise. The kind is kept for
      the reader; every caller treats all kinds alike (the exception escapes). */
  datatype Error =
    | KeyError
    | TypeError
    | ValueError
    | IndexError
    | AttributeError
    | NameError
    | OverflowError
    | Unsupported  // a construct outside the model (for example a format spec)

  datatype Result<+T> = Ok(value: T) | Err(error: Error) {
    predicate IsFailure() {
      Err?
    }

    function PropagateFailure<U>(): Result<U>
      requires Err?
    {
      Err(error)
    }

    function Extract(): T
      requires Ok?
    {
      value
    }
  }
}
