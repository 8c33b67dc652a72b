/** Small shared vocabulary: optional request fields and their JavaScript truthiness. */
module Basics {

  /** A request-body field or a nullable column: None when absent. */
  datatype Option<+T> = None | Some(value: T) {

    /** The carried value, or `default` when absent. */
    function GetOr(default: T): T {
      match this
      case Some(v) => v
      case None => default
    }
  }

  /** A string field the handlers accept: present and not the empty string
      (the only falsy strings in JavaScript). */
  predicate Truthy(field: Option<string>) {
    field.Some? && field.value != ""
  }

  function Max(a: int, b: int): int {
    if a < b then b else a
  }
}
