/** Values that may be absent: Python's None beside a value. */
module Wrappers {
  datatype Option<+T> = None | Some(value: T)
}
