/** The optional value used for the script's `None`-initialised slots. */
module Wrappers {
  datatype Option<+T> = None | Some(value: T)
}
