/** The optional value used wherever the PHP code may hand back NULL. */
module Wrappers {

  datatype Option<+T> = None | Some(value: T)
}
