/** An optional value: a TypeScript property declared with `?`, or a `T | null` state. */
module Options {

  datatype Option<+T> = None | Some(value: T)
}
