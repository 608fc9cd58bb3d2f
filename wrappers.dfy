/** The optional value used across the model: `None` stands for SQL NULL, JavaScript
    `undefined`/`NaN` or an absent row, as each use says. */
module Wrappers {
  datatype Option<+T> = None | Some(value: T) {
    function GetOr(default: T): T {
      match this
      case Some(v) => v
      case None => default
    }
  }
}
