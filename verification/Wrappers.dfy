/** The two result types used throughout: an optional value, and a value or the C++ exception
    that was thrown instead of it. */
module Wrappers {

  datatype Option<+T> = None | Some(value: T)

  /** The exceptions that the conversions and the homomorphic encryptor throw. */
  datatype Error = InvalidArgument | OutOfRange | InvalidPlaintext

  datatype Result<+T> = Ok(value: T) | Raised(error: Error)
}
