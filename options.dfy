/** Optional values: a fetch that may come back empty, a field that may be absent. */
module Options {
  datatype Option<+T> = None | Some(value: T)
}
