/** Option type for the outcome of a server fetch that may fail. */
module Wrappers {
  datatype Option<+T> = None | Some(value: T)
}
