/** Optional values: a Python `None`, a missing key, a call that raised. */
module Wrappers {
  datatype Option<+T> = None | Some(value: T)
}
