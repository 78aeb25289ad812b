/** Optional values: a null pointer, or what it points to. */
module Options {
  datatype Option<+T> = None | Some(value: T)
}
