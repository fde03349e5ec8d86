/** Go's `nil` for an `error` value: an absent error is `None`. */
module Wrappers {
  datatype Option<+T> = None | Some(value: T)
}
