/** Optional values, standing in for the null pointers the docking code returns. */
module Wrappers {

  datatype Option<+T> = None | Some(value: T)
}
