/** An optional value, for fields and arguments the source may leave undefined. */
module Optional {
  datatype Option<+T> = None | Some(value: T)
}
