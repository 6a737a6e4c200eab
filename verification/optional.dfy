/** Optional values, the model's stand-in for Go's nil pointers and nil errors. */
module Optional {

  datatype Option<+T> = None | Some(value: T) {

    /** The value, or `default` when there is none. */
    function GetOr(default: T): T {
      match this
      case Some(v) => v
      case None => default
    }
  }
}
