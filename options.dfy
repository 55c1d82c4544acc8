/** Optional values: a JavaScript `null` or `undefined` becomes `None`. */
module Options {
  datatype Option<+T> = None | Some(value: T)
}
