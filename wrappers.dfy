/** Optional values: stand for the nullable columns and for JavaScript's null / undefined. */
module Wrappers {

  datatype Option<+T> = None | Some(value: T)
}
