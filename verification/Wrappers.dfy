// Shared value types.
module Wrappers {

  /** A nullable database column or an optional request field. */
  datatype Option<+T> = None | Some(value: T)
}
