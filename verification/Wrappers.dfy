/** The one general-purpose datatype shared by every module of the model. */
module Wrappers {
  datatype Option<+T> = None | Some(value: T)
}
