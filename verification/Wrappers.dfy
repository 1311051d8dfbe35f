/** Values that may be missing: nullable columns, absent rows and optional request headers. */
module Wrappers {
  datatype Option<+T> = None | Some(value: T)
}
