/** Option, for values the source represents with Python's `None`. */
module Wrappers {
  datatype Option<+T> = None | Some(value: T)
}
