/** The optional value used where the JavaScript code reads a field that may be
    absent (`undefined`): request-body fields, the caller attached by the
    authentication middleware, the id handed back by a save. */
module Wrappers {

  datatype Option<+T> = None | Some(value: T) {

    /** The value, or `default` when there is none (JavaScript's `x || default`
        on a field that is either absent or a non-empty string). */
    function GetOr(default: T): T {
      match this
      case Some(v) => v
      case None => default
    }
  }
}
