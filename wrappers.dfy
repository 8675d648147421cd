/** The optional value used where the source would raise an error. */
module Wrappers {

  datatype Option<+T> = None | Some(value: T)
}
