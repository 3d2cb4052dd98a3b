/** A value that may be absent: the model of the source's `null`/`undefined`. */
module Optional {
  datatype Option<+T> = None | Some(value: T)
}
