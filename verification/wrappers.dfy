/** Optional values: a JavaScript `null`/`undefined` or a missing JSON field is `None`. */
module Wrappers {

  datatype Option<+T> = None | Some(value: T)
}
