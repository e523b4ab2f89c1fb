/** Optional values: a nullable column, a missing row, a nil pointer. */
module Wrappers {
  datatype Option<+T> = None | Some(value: T)
}
