/** Optional values, used wherever the source returns nil or "not found". */
module Wrappers {

  datatype Option<+T> = None | Some(value: T)
}
