/** Optional values: a pending animation, a CSS write that may not happen. */
module Wrappers {
  datatype Option<+T> = None | Some(value: T)
}
