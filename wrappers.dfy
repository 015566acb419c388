/** Option, for an output that a C function may or may not write. */
module Wrappers {

  datatype Option<+T> = None | Some(value: T)
}
