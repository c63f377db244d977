/** A value that may be absent: stands for the `null`/`undefined` fields of the stored documents. */
module Options {
  datatype Option<+T> = None | Some(value: T)
}
