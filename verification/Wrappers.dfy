/** A nullable column, a field that may be absent, a table that may not exist yet. */
module Wrappers {
  datatype Option<+T> = None | Some(value: T)
}
