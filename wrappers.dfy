/** Optional values: JavaScript's `undefined` (and a missing map entry) is `None`. */
module Wrappers {

  datatype Option<+T> = None | Some(value: T)
}
