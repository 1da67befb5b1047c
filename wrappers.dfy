/** Values that may be absent, and results that may be an error. */
module Wrappers {

  datatype Option<+T> = None | Some(value: T)

  /** A Python call that either returns a value or raises; the error carries
      the exception's message. */
  datatype Result<+T> = Ok(value: T) | Err(message: string)
}
