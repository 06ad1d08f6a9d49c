/** Shared value types of the backend model. */
module Common {

  /** A JavaScript value that may be `undefined`. */
  datatype Option<+T> = None | Some(value: T) {
    function GetOr(default: T): T {
      match this
      case Some(v) => v
      case None => default
    }
  }

  /** What a request handler answers: a value sent with status 200, or an error status and its message. */
  datatype Outcome<+T> = Ok(value: T) | Fail(status: int, message: string)

  /** MongoDB object ids, compared through their string form. */
  type Id = string
}
