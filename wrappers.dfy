/** Optional values, standing in for Python's None and for a caught exception. */
module Wrappers {

  datatype Option<+T> = None | Some(value: T)

}
