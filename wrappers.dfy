/** Optional values, used for the toast's title block and the in-flight submission. */
module Wrappers {
  datatype Option<+T> = None | Some(value: T)
}
