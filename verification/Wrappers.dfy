/** A value that may be absent: JavaScript's `undefined` and `null`, and a time value that is not a number. */
module Wrappers {
  datatype Option<+T> = None | Some(value: T)
}
