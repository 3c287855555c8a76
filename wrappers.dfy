/** The absent-or-present value used wherever the Java code returns null or throws. */
module Wrappers {

  datatype Option<+T> = None | Some(value: T) {

    /** The value when present, the default otherwise (Java's getOrDefault on a missing key). */
    function GetOr(default: T): T {
      match this
      case Some(v) => v
      case None => default
    }
  }
}
