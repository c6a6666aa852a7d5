/** Optional values, used wherever the source may fail or return nothing. */
module Wrappers {

  datatype Option<+T> = None | Some(value: T)
}
