module Options {

  /** An optional value: `None` when there is nothing. */
  datatype Option<T> = None | Some(value: T)
}
