/** Optional values: a browser effect that may yield nothing (no storage, no manifest, no global list). */
module Wrappers {
  datatype Option<+T> = None | Some(value: T)
}
