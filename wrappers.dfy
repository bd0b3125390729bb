/** Optional values, used for the error outcome of link validation. */
module Wrappers {
  datatype Option<+T> = None | Some(value: T)
}
