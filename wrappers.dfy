/** Option, used for the optional exception payload of a log record. */
module Wrappers {
  datatype Option<+T> = None | Some(value: T)
}
