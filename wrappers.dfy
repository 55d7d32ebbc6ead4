/** Option and Result, used for the source's nullable columns and its not-found errors. */
module Wrappers {

  /** A nullable value: `None` stands for the source's `None` / SQL NULL. */
  datatype Option<+T> = None | Some(value: T) {

    /** The value, or `default` when there is none (Python's `x or default` on a nullable text). */
    function GetOr(default: T): T {
      match this
      case Some(v) => v
      case None => default
    }
  }

  /** Either a value or an error the endpoint reports instead of a response. */
  datatype Result<+T, +E> = Ok(value: T) | Err(error: E)
}
