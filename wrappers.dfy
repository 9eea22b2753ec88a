/** Optional values: the calculator's `result` state is either a result or `null`. */
module Wrappers {

  datatype Option<+T> = None | Some(value: T)
}
