/** Optional values, for the JavaScript fields and matches that may be absent. */
module Wrappers {

  datatype Option<+T> = None | Some(value: T)
}
