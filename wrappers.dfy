/** The absent-or-present value used for the helper's nullable error message. */
module Wrappers {

  datatype Option<+T> = None | Some(value: T)
}
