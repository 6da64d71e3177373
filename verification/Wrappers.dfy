/** The optional result of an operation that may fail. */
module Wrappers {
  datatype Option<+T> = None | Some(value: T)
}
