/** Optional values: Python's `None` results and `dict.get` misses. */
module Wrappers {

  datatype Option<+T> = None | Some(value: T)

}
