/** Optional values, for Python's `Optional[...]` and `dict.get`. */
module Wrappers {
  datatype Option<+T> = None | Some(value: T)
}
