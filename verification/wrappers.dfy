/** The wrappers used by the model: `Option` for a value that JavaScript may
    leave `undefined`, and `Result` for a controller that either answers or
    rejects the request with an HTTP error. */
module Wrappers {

  datatype Option<+T> = None | Some(value: T) {

    /** The value, or `default` when it is missing (a JavaScript default parameter). */
    function GetOr(default: T): T {
      match this
      case Some(v) => v
      case None => default
    }
  }

  datatype Result<+R, +E> = Success(value: R) | Failure(error: E)
}
