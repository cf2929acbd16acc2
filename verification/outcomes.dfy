/** Failure-carrying values shared by the whole model. A Python function that
    either returns a value or raises becomes a function returning `Result`. */
module Outcomes {

  /** A value that may be absent, as `None` is in Python. */
  datatype Option<+T> = None | Some(value: T)

  /** The exceptions `DatabaseConnector` lets escape to its caller. */
  datatype PyError =
    | ValueError(message: string)
      /** An SQLAlchemy error raised while connecting, carrying `str(e)`. */
    | DatabaseError(message: string)
      /** Any other exception, by its class name and `str(e)`: for instance
          `ModuleNotFoundError` when the driver module is missing. */
    | OtherError(name: string, message: string)

  /** Either the returned value or the raised exception. */
  datatype Result<+T> = Ok(value: T) | Err(error: PyError)
}
