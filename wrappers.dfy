/** The absent-or-present value used wherever the source has `null`. */
module Wrappers {

  datatype Option<+T> = None | Some(value: T)
}
