/** An optional value, used where the source either has a value or signals absence. */
module Wrappers {
  datatype Option<+T> = None | Some(value: T)
}
