/** Optional values: a redis GET reply is a value or nil. */
module Wrappers {

  datatype Option<+T> = None | Some(value: T)
}
