/** A value that may be missing: Python's `None` next to a real result. */
module Wrappers {

  datatype Option<+T> = None | Some(value: T)
}
