/** An optional value: the source's `None` or a value. */
module Options {

  datatype Option<+T> = None | Some(value: T) {

    /** The value if there is one, otherwise `default` (Python's `x or default`). */
    function GetOr(default: T): T
    {
      match this
      case Some(v) => v
      case None => default
    }
  }
}
