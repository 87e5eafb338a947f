/** An optional value, used for the Go functions that return a value-or-nil. */
module Wrappers {
  datatype Option<+T> = None | Some(value: T)
}
