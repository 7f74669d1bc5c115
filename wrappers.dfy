/** Optional values, standing in for the Java `null` results of the source. */
module Wrappers {

  datatype Option<+T> = None | Some(value: T)
}
