/** Optional values, used where the model declines to give a result. */
module Wrappers {

  datatype Option<+T> = None | Some(value: T)
}
