/** Option type used for JavaScript's `undefined`/`null` and for absent results, and the
    truthiness of an optional string field. */
module Wrappers {
  datatype Option<+T> = None | Some(value: T) {
    function GetOr(default: T): T {
      match this
      case Some(v) => v
      case None => default
    }
  }

  /** A request field is truthy when it is present and not the empty string. */
  predicate Truthy(v: Option<string>) {
    v.Some? && v.value != ""
  }
}
