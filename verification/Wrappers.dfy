/**
 A value that may be missing: a null pointer, an unset field or a lookup without an answer.
 */
module Wrappers {

  datatype Option<+T> = None | Some(value: T) {
    function GetOr(default: T): T {
      if None? then default else value
    }
  }
}
