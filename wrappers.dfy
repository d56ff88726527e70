/** Optional values, standing in for JavaScript `null` and Python `None`. */
module Wrappers {

  datatype Option<+T> = None | Some(value: T)
}
