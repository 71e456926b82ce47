/** Failure-compatible wrappers used by the pallet model: `Option` for
    storage items read with `OptionQuery`, and `Result` for a dispatchable's
    `DispatchResult`. */
module Wrappers {

  /** A storage value that may be unset. */
  datatype Option<+T> = None | Some(value: T) {

    /** The stored value, or `default` when the item is unset. */
    function GetOr(default: T): T {
      match this
      case Some(v) => v
      case None => default
    }
  }

  /** The outcome of a dispatchable: a value on success, an error otherwise. */
  datatype Result<+R, +E> = Ok(value: R) | Err(error: E)
}
