/** Optional values: a null shared pointer, an absent component or a failed load. */
module Wrappers {
  datatype Option<+T> = None | Some(value: T)
}
