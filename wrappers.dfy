/** Optional values: a storage entry that may be absent, a CSS value that may be invalid. */
module Wrappers {
  datatype Option<+T> = None | Some(value: T)
}
