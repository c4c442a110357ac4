/** The optional value used for nullable foreign keys and for conversions that can fail. */
module Wrappers {
  datatype Option<+T> = None | Some(value: T)
}
