/** Option and the three-way presence of a JavaScript property. */
module Wrappers {

  datatype Option<+T> = None | Some(value: T) {
    function GetOr(default: T): T {
      match this
      case Some(v) => v
      case None => default
    }
  }

  datatype Result<+T, +E> = Ok(value: T) | Err(error: E)

  /** A property read from a stored document: missing (`undefined`),
      explicitly `null`, or holding a value. */
  datatype Presence<+T> = Absent | Null | Present(value: T) {
    predicate IsDefined() { !Absent? }
  }
}
