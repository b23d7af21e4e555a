/** Optional values: the model's stand-in for java.util.Optional and for nullable references to values. */
module Wrappers {

  datatype Option<+T> = None | Some(value: T) {

    /** `Optional.orElse` */
    function GetOr(default: T): T {
      match this
      case Some(v) => v
      case None => default
    }
  }
}
