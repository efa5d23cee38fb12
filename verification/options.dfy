/** Optional values, used wherever the source has a Rust `Option`. */
module Options {
  datatype Option<+T> = None | Some(value: T)
}
