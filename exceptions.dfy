/** The exceptions the percolation grid throws, as values. */
module Exceptions {

  /** `IllegalArgumentException` and `IndexOutOfBoundsException`. */
  datatype Error = IllegalArgument | IndexOutOfBounds

  /** The answer of a query, or the exception thrown in its place. */
  datatype Result<+T> = Ok(value: T) | Err(error: Error)

  /** How a command completed: normally, or by throwing. */
  datatype Outcome = Pass | Fail(error: Error)
}
