/** Small value wrappers shared by the other modules. */
module Wrappers {

  /** An optional value: the model's stand-in for Go's `(T, error)` pairs and nil pointers. */
  datatype Option<T> = None | Some(value: T) {

    /** The wrapped value, or `default` when there is none. */
    function GetOr(default: T): T {
      match this
      case Some(v) => v
      case None => default
    }
  }
}
