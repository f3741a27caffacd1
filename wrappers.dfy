/** An optional value: the model's counterpart of a nullable argument (`T? x = null`). */
module Wrappers {

  datatype Option<T> = None | Some(value: T)
  {
    /** The value if present, otherwise `default`: C#'s `x ?? default`. */
    function GetOr(default: T): T
    {
      match this
      case Some(v) => v
      case None => default
    }
  }
}
