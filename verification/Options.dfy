/** An optional value, used for the source's null pointers, undefined fields and absent keys. */
module Options {
  datatype Option<+T> = None | Some(value: T)
}
