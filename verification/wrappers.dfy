/** The outcome of a coercion that may fail: a missing or non-numeric cell is `None`. */
module Wrappers {

  datatype Option<+T> = None | Some(value: T)
}
