/** Optional values, used for Python's "raises instead of returning". */
module Wrappers {
  datatype Option<+T> = None | Some(value: T)
}
