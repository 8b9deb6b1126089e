/** Optional values: JavaScript's `undefined` / "not found" results. */
module Wrappers {
  datatype Option<+T> = None | Some(value: T)
}
