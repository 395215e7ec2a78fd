/** The optional values (nullable columns, failed lookups) used throughout. */
module Wrappers {
  datatype Option<+T> = None | Some(value: T)
}
