/** A value that may be absent, as the source's Option. */
module Wrappers {
  datatype Option<+T> = None | Some(value: T)
}
