/** Result and error types shared by the handlers of the model. */
module Wrappers {

  datatype Option<+T> = None | Some(value: T)

  datatype Result<+T, +E> = Ok(value: T) | Err(error: E)

  /** The error replies the handlers send, each with its message:
      BadRequest is status 400, NotFound 404 and Internal 500. */
  datatype Failure =
    | BadRequest(message: string)
    | NotFound(message: string)
    | Internal(message: string)
}
