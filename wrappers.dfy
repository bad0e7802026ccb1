/** Optional values: JavaScript's `undefined`/`null` and absent links are `None`. */
module Wrappers {
  datatype Option<+T> = None | Some(value: T)
}
