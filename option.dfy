/** An optional value: a JavaScript `null` / `undefined` field, or an operation that throws. */
module Options {
  datatype Option<T> = None | Some(value: T)
}
