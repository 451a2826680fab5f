/** The optional value used for `undefined` results. */
module Wrappers {

  datatype Option<+T> = None | Some(value: T)
}
