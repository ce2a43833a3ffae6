/** Optional values: a field that may be missing from a stored document. */
module Wrappers {

  datatype Option<+T> = None | Some(value: T)
}
