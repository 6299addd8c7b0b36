/** A value that may be missing: Go's nil slice, second result, or absent error. */
module Wrappers {

  datatype Option<+T> = None | Some(value: T)
}
