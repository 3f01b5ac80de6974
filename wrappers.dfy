/** Optional values, for JavaScript's `null`/`undefined` and for "no transition offered". */
module Wrappers {
  datatype Option<+T> = None | Some(value: T)
}
