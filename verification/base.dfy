/** Small failure-carrying datatypes shared by the model. */
module Base {

  /** An optional value, as Rust's `Option`. */
  datatype Option<+T> = None | Some(value: T)

  /** The outcome of an operation that can fail, as Rust's `Result`; a panic
      of the source (an `unwrap` on an error) is modelled as `Err`. */
  datatype Result<+T, +E> = Ok(value: T) | Err(error: E)
}
