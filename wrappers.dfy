/** The Option datatype used for the repository finders that may return null. */
module Wrappers {

  datatype Option<+T> = None | Some(value: T)
}
