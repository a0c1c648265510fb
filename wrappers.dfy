/** Option and Result values shared by every module of the model. */
module Wrappers {
  datatype Option<T> = None | Some(value: T) {
    /** Python's `x if x is not None else d`. */
    function GetOr(d: T): T { if Some? then value else d }
  }

  /** A Python return value (Success) or a raised exception (Failure). */
  datatype Result<T, E> = Success(value: T) | Failure(error: E)
}
