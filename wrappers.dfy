/** Optional values: a Python `None`, an exception path or a missing entry. */
module Wrappers {

  datatype Option<+T> = None | Some(value: T)
}
