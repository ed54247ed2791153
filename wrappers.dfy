/** An optional value: a JavaScript property or argument that may be absent. */
module Wrappers {
  datatype Option<T> = None | Some(value: T)
}
