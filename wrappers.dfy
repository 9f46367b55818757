/** Optional values, used for Python's `None` and for reads that raised. */
module Wrappers {
  datatype Option<+T> = None | Some(value: T)
}
