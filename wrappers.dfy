/** Optional values: a Redis reply that may be nil, a header that may be absent. */
module Wrappers {

  datatype Option<+T> = None | Some(value: T)
}
