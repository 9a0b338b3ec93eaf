/** Option, the one failure-carrying datatype the model needs: `None` stands for
    Python's `None`, and for "the call raised" when it wraps an external call. */
module Wrappers {

  datatype Option<+T> = None | Some(value: T) {

    /** The value, or `default` when there is none (Python's `x or default`
        for an optional string). */
    function GetOr(default: T): T {
      match this
      case Some(v) => v
      case None => default
    }
  }
}
