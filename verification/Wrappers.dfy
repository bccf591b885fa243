/** A value that may be missing: Python's `None`, a missing key, or a raised exception. */
module Wrappers {
  datatype Option<+T> = None | Some(value: T)
}
