/** A value that may be missing, as a null pointer or an unset field is. */
module Wrappers {
  datatype Option<+T> = None | Some(value: T)
}
