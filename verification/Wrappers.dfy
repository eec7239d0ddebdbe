/** Values that may be absent, as the program's `None`. */
module Wrappers {
  datatype Option<+T> = None | Some(value: T)
}
