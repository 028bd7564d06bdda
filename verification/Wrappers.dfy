/** The optional value used by every module of this project. */
module Wrappers {
  datatype Option<+T> = None | Some(value: T)
}
