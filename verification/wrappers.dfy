/** Optional values: Kotlin's nullable types (`T?`) in the model. */
module Wrappers {
  datatype Option<+T> = None | Some(value: T)
}
