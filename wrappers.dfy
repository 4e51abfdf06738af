/** Optional values: an object reference that may be None, a reply that may be missing. */
module Wrappers {

  datatype Option<+T> = None | Some(value: T)
}
