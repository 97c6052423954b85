/** Optional values, used wherever the modelled Go code has a nil value or a missing entry. */
module Wrappers {
  datatype Option<+T> = None | Some(value: T)
}
