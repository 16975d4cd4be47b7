/** Option and Result, the two ways an entry point of the contract reports an absent value
    or an aborted transaction. */
module Wrappers {

  datatype Option<+T> = None | Some(value: T) {

    /** The `unwrap_or` of the source: the value, or the default when absent. */
    function GetOr(default: T): T {
      match this
      case Some(v) => v
      case None => default
    }
  }

  /** `Ok` carries the outcome of a transaction; `Err` is a panic or failed `require!`,
      which in the contract aborts the call and rolls back every write. */
  datatype Result<+T, +E> = Ok(value: T) | Err(error: E)
}
