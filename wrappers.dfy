/** The optional value used wherever the server tests for `None`. */
module Wrappers {

  datatype Option<+T> = None | Some(value: T)
}
