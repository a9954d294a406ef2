/** Small failure-carrying datatypes shared by every module of the model. */
module Wrappers {

  /** A value that may be missing: JavaScript's `null`/`undefined`, or `NaN` from a parse. */
  datatype Option<+T> = None | Some(value: T) {

    /** The value, or `default` when there is none. */
    function GetOr(default: T): T {
      match this
      case Some(v) => v
      case None => default
    }
  }

  /**
    * What an awaited call to the remote service gave back: it resolved with a
    * response, or it rejected (transport error, HTTP error status, ...).
    */
  datatype Outcome<+R> = Succeeded(response: R) | Failed
}
