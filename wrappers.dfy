/** Optional values: `T | null` and `T | undefined` in the TypeScript sources. */
module Wrappers {

  datatype Option<+T> = None | Some(value: T)
}
