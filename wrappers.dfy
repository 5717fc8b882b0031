/** A value that may be absent: JavaScript's `null`/`undefined` for the fields the detector inspects. */
module Wrappers {
  datatype Option<T> = None | Some(value: T)
}
