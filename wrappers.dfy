/** The optional values of the source (`undefined`, `null`, a missing field). */
module Wrappers {
  datatype Option<+T> = None | Some(value: T)
}
