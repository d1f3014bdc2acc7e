/** The one wrapper every module shares. */
module Wrappers {
  datatype Option<+T> = None | Some(value: T)
}
