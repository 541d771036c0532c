/** The optional value used for nullable fields and dictionary lookups. */
module Wrappers {
  datatype Option<+T> = None | Some(value: T)
}
