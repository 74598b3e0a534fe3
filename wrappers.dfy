/** The optional value used for JavaScript's `null` and for lookups that can fail. */
module Wrappers {
  datatype Option<+T> = None | Some(value: T)
}
