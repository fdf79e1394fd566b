/** Rust's `Option<T>`. */
module Maybe {

  datatype Option<+T> = None | Some(value: T)
}
