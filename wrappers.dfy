/** Option and Result values used across the model in place of JavaScript's
    `undefined`/`null` and of thrown errors. */
module Wrappers {

  datatype Option<+T> = None | Some(value: T) {
    function GetOr(default: T): T {
      match this
      case Some(v) => v
      case None => default
    }
  }

  datatype Result<+T, +E> = Ok(value: T) | Err(error: E)

  /** JavaScript truthiness of a nullable numeric id (`if (editingId)`):
      null and 0 are both falsy. */
  predicate IdIsSet(id: Option<int>) {
    id.Some? && id.value != 0
  }
}
