/** A value that may be absent: the source's pairs of a flag and a value. */
module Wrappers {
  datatype Option<+T> = None | Some(value: T)
}
