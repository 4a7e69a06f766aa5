/** A value that may be missing: nil, null or an absent field. */
module Options {
  datatype Option<T> = None | Some(value: T)
}
