/** The conventional optional value, used for every lookup or computation that can fail. */
module Wrappers {
  datatype Option<+T> = None | Some(value: T)
}
