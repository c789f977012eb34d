/** The optional-value wrapper used throughout the model: JavaScript `null`/`undefined`,
    Python `None` and SQL `NULL` all become `None`. */
module Wrappers {

  datatype Option<+T> = None | Some(value: T) {

    /** The wrapped value, or `default` when there is none. */
    function GetOr(default: T): T
    {
      match this
      case Some(v) => v
      case None => default
    }
  }
}
