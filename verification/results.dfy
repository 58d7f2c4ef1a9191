/** Failure-carrying results shared by every stage of the expression pipeline.
    The Rust code returns `Result<_, String>` or `Result<_, &'static str>`;
    here each stage names its errors with a datatype of its own. */
module Results {

  /** An optional value, the model of Rust's `Option`. */
  datatype Option<+T> = None | Some(value: T)

  /** Either a computed value or the error that stopped the computation. */
  datatype Result<+T, +E> = Ok(value: T) | Err(error: E)
}
