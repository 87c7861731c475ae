/** Optional values, standing for Go's `(value, error)` pairs and nil results. */
module Wrappers {
  datatype Option<+T> = None | Some(value: T)
}
