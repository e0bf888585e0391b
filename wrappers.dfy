/** An optional value: a null pointer or a missing field. */
module Wrappers {
  datatype Option<T> = None | Some(value: T)
}
