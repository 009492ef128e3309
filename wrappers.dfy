/** Optional values: a JSON field that may be missing, a lookup that may miss. */
module Wrappers {

  datatype Option<+T> = None | Some(value: T)
}
