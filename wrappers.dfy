/** Optional values, for what the source signals with `null` or `undefined`. */
module Wrappers {
  datatype Option<+T> = None | Some(value: T)
}
