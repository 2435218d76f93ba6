/** Shared result shapes. */
module Wrappers {

  /** A value that may be absent: a nullable column, a row that was not found. */
  datatype Option<+T> = None | Some(value: T)
}
