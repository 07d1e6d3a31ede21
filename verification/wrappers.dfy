/** Failure-carrying datatypes shared by every module of the model. */
module Wrappers {

  /** An optional value: a field absent from a request body or a record. */
  datatype Option<+T> = None | Some(value: T) {

    /** The carried value, or `default` when absent. */
    function GetOr(default: T): T {
      match this
      case Some(v) => v
      case None => default
    }
  }

  /** The outcome of a request handler: a value, or the error it reports. */
  datatype Result<+R, +E> = Ok(value: R) | Err(error: E)
}
