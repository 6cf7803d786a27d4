/** Optional values: an absent JavaScript property, `undefined` or `null`. */
module Wrappers {
  datatype Option<+T> = None | Some(value: T)
}
