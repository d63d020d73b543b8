/** Python exceptions raised by the windowing code, and the Option/Result
    wrappers the model uses in place of `None` arguments and raised errors. */
module Results {

  /** The Python exception classes the modelled lines can raise. */
  datatype Error =
    | ZeroDivisionError   // `x / 0` or `x // 0`
    | IndexError          // numpy integer indexing outside the array
    | ValueError          // numpy `reshape` or `concatenate` with incompatible shapes

  /** An optional argument: `None` or a value. */
  datatype Option<T> = None | Some(value: T) {
    function GetOr(default: T): T {
      if Some? then value else default
    }
  }

  /** Either the value a Python expression evaluates to or the exception it raises. */
  datatype Result<R> = Success(value: R) | Failure(error: Error) {
    predicate IsFailure() {
      Failure?
    }

    function PropagateFailure<U>(): Result<U>
      requires Failure?
    {
      Failure(error)
    }

    function Extract(): R
      requires Success?
    {
      value
    }
  }
}
