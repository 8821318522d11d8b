/** An optional value: a blank CSV cell (no parent, unknown trait) is `None`. */
module Optional {

  datatype Option<+T> = None | Some(value: T)
}
