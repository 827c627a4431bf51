// A value that may be absent: a null pointer, or a row that was not found.
module Wrappers {
  datatype Option<+T> = None | Some(value: T)
}
