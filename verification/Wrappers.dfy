/** The one general-purpose datatype the model shares: an optional value. */
module Wrappers {
  datatype Option<+T> = None | Some(value: T)
}
