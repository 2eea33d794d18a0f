/** An optional value: JavaScript's "the object may be missing". */
module Wrappers {
  datatype Option<T> = None | Some(value: T)
}
