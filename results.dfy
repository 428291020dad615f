/** Python exceptions raised by the modelled code, as values. */
module Results {

  /** The exception classes the modelled code can raise. */
  datatype Error =
    | ValueError(message: string)
    | ZeroDivisionError
    | TypeError
    | IndexError
    | NameError(name: string)

  /** The outcome of an operation that either returns a value or raises. */
  datatype Result<+T> = Ok(value: T) | Err(error: Error) {

    predicate IsFailure() {
      Err?
    }

    function PropagateFailure<U>(): Result<U>
      requires Err?
    {
      Err(error)
    }

    function Extract(): T
      requires Ok?
    {
      value
    }
  }
}
