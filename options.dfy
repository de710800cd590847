/** An optional value: the `null`/`undefined` of the TypeScript sources. */
module Options {
  datatype Option<T> = None | Some(value: T)
}
