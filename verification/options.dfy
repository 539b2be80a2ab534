/** An optional value: the card view's colour read-back and the drop
    report's destination both use it. */
module Options {

  datatype Option<T> = None | Some(value: T)
}
