/** Optional values, used wherever a lookup may have no answer. */
module Wrappers {

  datatype Option<+T> = None | Some(value: T)
}
