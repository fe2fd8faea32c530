/** Optional values, standing for the source's `undefined`/`null` and for absent JSON fields. */
module Wrappers {
  datatype Option<+T> = None | Some(value: T)
}
