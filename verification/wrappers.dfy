/** Optional values: request parameters that may be absent, lookups that may miss. */
module Wrappers {

  datatype Option<+T> = None | Some(value: T)
}
