/** Optional values, used where the source returns null or does nothing. */
module Wrappers {

  datatype Option<+T> = None | Some(value: T)

}
