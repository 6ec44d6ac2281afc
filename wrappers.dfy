/** Optional values, for JavaScript's `null` and for operations that can fail. */
module Wrappers {
  datatype Option<+T> = None | Some(value: T)
}
