/** An optional value: the answer of a lookup that can fail. */
module Options {

  datatype Option<T> = None | Some(value: T)
}
