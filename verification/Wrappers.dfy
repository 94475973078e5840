/** The usual optional value, in place of the source's `null` and `undefined`. */
module Wrappers {
  datatype Option<+T> = None | Some(value: T)
}
