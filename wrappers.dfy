/** Optional values: a key missing from a decoded payload, a cache field not yet set. */
module Wrappers {
  datatype Option<+T> = None | Some(value: T)
}
