/** Optional values, for a query-string key that may be absent and for a form
    that may or may not send a request. */
module Wrappers {
  datatype Option<+T> = None | Some(value: T)
}
