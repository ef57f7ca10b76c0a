/** Small shared value types. */
module Wrappers {

  /** A value that may be absent (a missing query parameter, no focused slot). */
  datatype Option<+T> = None | Some(value: T)
}
