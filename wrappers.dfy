/** Optional values and success/failure results, used for Python's `Optional[...]`
    fields and for construction-time validation errors. */
module Wrappers {

  datatype Option<+T> = None | Some(value: T) {
    /** The value if present, the default otherwise (a Pydantic field default). */
    function GetOr(default: T): T {
      match this
      case Some(v) => v
      case None => default
    }
  }

  datatype Result<+R, +E> = Success(value: R) | Failure(error: E)
}
