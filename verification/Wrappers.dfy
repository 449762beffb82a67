/** The optional value used throughout the model for nullable results. */
module Wrappers {
  datatype Option<+T> = None | Some(value: T)
}
