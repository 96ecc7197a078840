/** Optional values and the presence of a key in a Python dict. */
module Wrappers {

  /** A value that may be `None`. */
  datatype Option<+T> = None | Some(value: T) {

    /** The value, or `default` when there is none (Python's `x or default` for optional data). */
    function GetOr(default: T): T
    {
      match this
      case Some(v) => v
      case None => default
    }
  }

  /** Whether a key is present in a conversation-state dict, and its value when it is. */
  datatype Slot<+T> = Absent | Present(value: T) {

    /** `d.get(key, default)` */
    function GetOr(default: T): T
    {
      match this
      case Present(v) => v
      case Absent => default
    }
  }
}
