/** The outcome of a regular-expression match that may fail. */
module Wrappers {
  datatype Option<+T> = None | Some(value: T)
}
