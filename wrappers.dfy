/** Failure-compatible wrappers shared by the solver modules. */
module Wrappers {

  /** An optional value: Python's `None` or a value. */
  datatype Option<+T> = None | Some(value: T)
}
