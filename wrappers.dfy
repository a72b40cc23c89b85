/** Optional values: the model's stand-in for the null pointers and `npos` results of the source. */
module Wrappers {

  datatype Option<+T> = None | Some(value: T)
}
