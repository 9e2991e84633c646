/** Small wrappers shared by the whole model: an optional value (also SQL's
    NULL and Python's None), a result carrying a value or an error, and an
    outcome for operations that return nothing on success. */
module Common {

  datatype Option<+T> = None | Some(value: T) {
    function GetOr(default: T): T {
      match this
      case Some(v) => v
      case None => default
    }
  }

  datatype Result<+T, +E> = Success(value: T) | Failure(error: E)

  datatype Outcome<+E> = Pass | Fail(error: E)
}
