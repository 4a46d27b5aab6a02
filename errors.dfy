/** Failure values shared by the span and tensor models. The C++ code throws
    exceptions; here every operation that can throw returns one of these. */
module Errors {

  /** The three standard exception classes the core raises. */
  datatype Error =
    | InvalidArgument   // std::invalid_argument
    | RuntimeError      // std::runtime_error
    | OutOfRange        // std::out_of_range

  /** The outcome of an operation that yields a value or throws. */
  datatype Result<+T> = Ok(value: T) | Err(error: Error)

  /** The outcome of an operation that yields nothing or throws. */
  datatype Outcome = Pass | Fail(error: Error)
}
