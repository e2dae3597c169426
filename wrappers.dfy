/** The optional value used where the source returns `null` or looks a key up. */
module Wrappers {
  datatype Option<+T> = None | Some(value: T)
}
