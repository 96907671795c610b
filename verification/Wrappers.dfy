/** The optional value used wherever the library returns None or raises. */
module Wrappers {
  datatype Option<+T> = None | Some(value: T)
}
