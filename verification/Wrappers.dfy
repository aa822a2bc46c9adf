/** Optional values, for Go's "value, ok" results and nil pointers. */
module Wrappers {
  datatype Option<+T> = None | Some(value: T)
}
