/** Optional values: PHP's nullable returns (`?Client`, `first()`, `find()`). */
module Wrappers {

  datatype Option<+T> = None | Some(value: T)
}
