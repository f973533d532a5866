/** The optional value the Rust code writes as `Option<T>`. */
module Options {

  datatype Option<+T> = None | Some(value: T)

}
