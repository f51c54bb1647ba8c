// A value that may be missing: null pointers, absent map entries, rejected input.
module Wrappers {
  datatype Option<T> = None | Some(value: T)
}
