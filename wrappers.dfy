/** Optional values: the model's stand-in for a NaN sentinel or an undefined result. */
module Wrappers {

  datatype Option<+T> = None | Some(value: T)
}
