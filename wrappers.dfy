/** Optional values: a JavaScript `undefined`/`null` result or a field that may be absent. */
module Wrappers {
  datatype Option<T> = None | Some(value: T)
}
