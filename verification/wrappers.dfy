/** Optional and error-carrying results shared by the graph store and the activation state. */
module Wrappers {

  /** `None` stands for the JavaScript `null` the store hands back for a missing document. */
  datatype Option<+T> = None | Some(value: T) {
    function GetOr(default: T): T {
      match this
      case Some(v) => v
      case None => default
    }
  }

  /** `Err` stands for the `Error` object a callback receives instead of a document. */
  datatype Result<+T, +E> = Ok(value: T) | Err(error: E)
}
