/** A value that may be missing: nil in the program. */
module Wrappers {
  datatype Option<T> = None | Some(value: T)
}
