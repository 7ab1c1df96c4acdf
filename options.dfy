/** The "value or nothing" result the source expresses as `number | null`. */
module Options {
  datatype Option<T> = None | Some(value: T)
}
