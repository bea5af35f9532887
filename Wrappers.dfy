/** Small value wrappers shared by the model: an optional value, and the
    outcome of a call that may throw one of the exceptions the sample uses. */
module Wrappers {

  /** A value that may be absent (a C# nullable reference or value). */
  datatype Option<+T> = None | Some(value: T)

  /** The .NET exceptions the sample throws on API misuse. */
  datatype Exception =
    | ArgumentException(message: string, paramName: string)
    | InvalidOperationException(message: string)

  /** Either the value a call returns, or the exception it throws. */
  datatype Try<+T> = Ok(value: T) | Throws(exception: Exception)
}
