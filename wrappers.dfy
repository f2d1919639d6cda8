/** Result values for the operations of the widget library that raise. */
module Wrappers {

  /** The exception classes the modelled code raises. */
  datatype Error =
    | ZeroDivisionError
    | ValueError
    | RuntimeError
    | KeyError
    | TypeError
    | IndexError
    | AssertionError
    | AttributeError

  /** Either the value an operation returns or the exception it raises. */
  datatype Result<+T> = Success(value: T) | Failure(error: Error) {
    predicate IsFailure() {
      Failure?
    }
  }

  datatype Option<+T> = None | Some(value: T)
}
