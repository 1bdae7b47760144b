/** Optional values, used where a host query may give no answer. */
module Wrappers {
  datatype Option<+T> = None | Some(value: T)
}
