/** The optional value used for lookups and conversions that may fail. */
module Wrappers {
  datatype Option<+T> = None | Some(value: T)
}
