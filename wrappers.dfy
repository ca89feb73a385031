/** Failure-compatible wrapper used where the source can raise instead of returning. */
module Wrappers {
  datatype Option<+T> = None | Some(value: T)
}
