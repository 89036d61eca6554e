/** The optional value used for "no point selected" and "no point nearby". */
module Wrappers {
  datatype Option<+T> = None | Some(value: T)
}
