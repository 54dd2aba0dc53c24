/** A value that may be missing: the program's `None`, a NULL column, an absent row. */
module Options {

  datatype Option<T> = None | Some(value: T)
}
