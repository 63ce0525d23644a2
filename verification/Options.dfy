/** An optional value: a nullable column, or the result of a lookup that may find nothing. */
module Options {
  datatype Option<+T> = None | Some(value: T)
}
