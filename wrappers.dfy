/** The optional-value type shared by the rest of the model. */
module Wrappers {

  /** `None` stands for a JavaScript `undefined` result or a thrown error, as each use says. */
  datatype Option<+T> = None | Some(value: T) {

    /** The value, or `default` when there is none. */
    function GetOr(default: T): T {
      match this
      case Some(v) => v
      case None => default
    }
  }
}
