/** Optional values, standing in for the source's NULL pointers. */
module Wrappers {
  datatype Option<+T> = None | Some(value: T)
}
