/** An optional value, shared by the unpacker and the hit record. */
module Wrappers {
  datatype Option<T> = None | Some(value: T)
}
