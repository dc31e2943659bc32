/** Optional values, used wherever the source returns `None` or may find nothing. */
module Wrappers {

  datatype Option<+T> = None | Some(value: T)
}
