/** Failure-carrying results shared by every resolver model. */
module Wrappers {

  datatype Option<+T> = None | Some(value: T)

  /** A resolver either returns a value or throws an Error whose text reaches the client. */
  datatype Result<+T> = Ok(value: T) | Err(message: string)
}
