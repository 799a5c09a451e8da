/** An optional value: a request field, a cookie or a database lookup that may be absent. */
module Options {

  datatype Option<+T> = None | Some(value: T)
}
