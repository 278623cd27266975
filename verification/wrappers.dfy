/** Absence of a value, as JSON-shaped input presents it: `None` stands
    for a missing key, `null` and `undefined` wherever the page treats
    them alike. */
module Wrappers {

  datatype Option<+T> = None | Some(value: T) {

    /** The value, or `default` when there is none. */
    function GetOr(default: T): T {
      match this
      case Some(v) => v
      case None => default
    }
  }
}
