/** A value that may be absent: the source's nil, null, undefined, or missing key. */
module Options {
  datatype Option<T> = None | Some(value: T)
}
