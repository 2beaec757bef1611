/** A value that may be missing: Go's nil, a panic, or an absent error. */
module Wrappers {
  datatype Option<+T> = None | Some(value: T)
}
