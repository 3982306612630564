/** The one failure-compatible wrapper the model needs. */
module Wrappers {

  /** A value that may be absent: Python's `None` next to a real result. */
  datatype Option<+T> = None | Some(value: T)
}
