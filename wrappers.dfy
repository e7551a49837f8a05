/** Option and Result values shared by every module of the model. */
module Wrappers {

  /** A value that may be absent (Python `None`, JavaScript `null`/`undefined`). */
  datatype Option<+T> = None | Some(value: T) {
    function GetOr(default: T): T {
      match this
      case Some(v) => v
      case None => default
    }
  }

  /** The outcome of an operation that can fail with an error value. */
  datatype Result<+T, +E> = Ok(value: T) | Err(error: E)

  /** An HTTP error raised by a FastAPI handler (`HTTPException(status_code, detail)`). */
  datatype HttpError = HttpError(status: nat, detail: string)
}
