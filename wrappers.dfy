/** Presence and absence of a value, in place of Python's `None` results. */
module Wrappers {

  datatype Option<+T> = None | Some(value: T)
}
