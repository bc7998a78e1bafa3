/** Optional values: an element that a DOM query may not find, a number that parseInt may not read. */
module Options {
  datatype Option<+T> = None | Some(value: T)
}
