/** The optional value used for `find` results and for absent stored values. */
module Wrappers {
  datatype Option<T> = None | Some(value: T)
}
