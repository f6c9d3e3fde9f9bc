/** The optional value used where JavaScript returns `undefined` or throws. */
module Wrappers {

  datatype Option<+T> = None | Some(value: T)
}
