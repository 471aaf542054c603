/** Optional values, used for error returns and partial lookups. */
module Wrappers {

  datatype Option<+T> = None | Some(value: T)
}
