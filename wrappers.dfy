/** The optional value used wherever the source yields `null`, `undefined` or `NaN`. */
module Wrappers {
  datatype Option<+T> = None | Some(value: T)
}
