/** Failure-carrying datatypes shared by every module of the model. */
module Wrappers {

  /** A value that may be absent: JavaScript's `undefined`/`null`, or a
      lookup that found nothing. */
  datatype Option<+T> = None | Some(value: T) {

    /** The wrapped value, or `default` when absent (JavaScript's `x ?? d`). */
    function GetOr(default: T): T {
      match this
      case Some(v) => v
      case None => default
    }
  }

  /** Either a computed value or an error. */
  datatype Result<+T, +E> = Ok(value: T) | Err(error: E)

  /** A stored document's identifier (MongoDB's ObjectId). */
  type Id = nat

  /** An HTTP error answer: status code and message text. */
  datatype HttpError = HttpError(status: nat, message: string)
}
