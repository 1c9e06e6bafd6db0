/** The optional value used for a target index that JavaScript leaves `undefined`. */
module Wrappers {
  datatype Option<+T> = None | Some(value: T)
}
