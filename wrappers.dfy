/** Optional values, standing for Swift's `Optional`. */
module Wrappers {
  datatype Option<+T> = None | Some(value: T)
}
