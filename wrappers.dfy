/** Optional values, standing in for Go's `(value, error)` pairs and nil-able fields. */
module Wrappers {

  datatype Option<+T> = None | Some(value: T)
}
