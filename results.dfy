/** Values that may be absent, and the outcome of an operation that may raise a Python exception. */
module Results {

  /** A Python value that may be `None`. */
  datatype Option<+T> = None | Some(value: T)

  /** The Python exceptions the modelled code raises or lets escape. */
  datatype PyError =
    | ValueError(message: string)
    | TypeError
    | IndexError

  /** Either the value an operation returns or the exception it raises. */
  datatype Result<+T> = Ok(value: T) | Err(error: PyError)
}
