/** Optional values: the source's `string | null`. */
module Wrappers {

  datatype Option<+T> = None | Some(value: T)
}
