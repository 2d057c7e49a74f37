/** The optional value used wherever the page reads something that may be absent:
    a `null` attribute, a `null` form field, an unset "untrap" handle. */
module Wrappers {

  datatype Option<+T> = None | Some(value: T) {

    /** The value, or `default` when absent. */
    function GetOr(default: T): T
    {
      match this
      case Some(v) => v
      case None => default
    }
  }
}
