/** Small helper types shared by the modules of this model. */
module Wrappers {

  /** A value that may be absent: the model of a C pointer that may be NULL. */
  datatype Option<+T> = None | Some(value: T) {
    function GetOr(default: T): T {
      match this
      case Some(v) => v
      case None => default
    }
  }

  function Max(a: int, b: int): int {
    if a < b then b else a
  }
}
