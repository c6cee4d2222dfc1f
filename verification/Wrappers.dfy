/** The one optional-value type used throughout: a C pointer that may be null. */
module Wrappers {
  datatype Option<+T> = None | Some(value: T)
}
