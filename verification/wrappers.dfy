/** The optional value shared by every module: a missing field, an absent user, a NaN amount. */
module Wrappers {
  datatype Option<+T> = None | Some(value: T)
}
