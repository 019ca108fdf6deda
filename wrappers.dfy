/** Small failure-carrying datatypes shared by the model. */
module Wrappers {

  /** A value that may be absent: TypeScript `undefined`/`null`, Python `None`. */
  datatype Option<+T> = None | Some(value: T) {
    function GetOr(default: T): T {
      match this
      case Some(v) => v
      case None => default
    }
  }

  /** The outcome of a validator: it either returns or raises the given error. */
  datatype Outcome<+E> = Pass | Fail(error: E)
}
