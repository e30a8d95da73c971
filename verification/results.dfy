/** Failure-carrying results for the vector operations.
    Every exception the vector class can raise becomes one `Error` value. */
module Results {

  /** The ways a vector operation can fail. */
  datatype Error =
    | InvalidParameterType  // the constructor was given something that is neither an int nor iterable
    | DimensionsMustAgree   // `+`, `-`, `<`, `<=` on operands of different lengths
    | IndexOutOfRange       // an index outside [-n, n) on a vector of length n
    | NoLength              // `len` applied to an operand that has no length
    | CannotMultiply        // `*` with an operand that is neither a number nor a vector
    | NoCoordinates         // the other operand has no coordinate list to compare with

  /** Either a value or the error that was raised instead. */
  datatype Result<T> = Ok(value: T) | Err(error: Error)

  /** An optional value, used by the parser of rendered vectors. */
  datatype Option<T> = None | Some(value: T)
}
