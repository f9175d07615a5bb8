/** Optional values: JavaScript's `null`/`undefined` results (`find`, `?.`). */
module Wrappers {
  datatype Option<+T> = None | Some(value: T)
}
