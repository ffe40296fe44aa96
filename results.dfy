/** Failure-carrying wrappers shared by every module of the model: Rust's
    `Option` and `Result`. */
module Results {

  datatype Option<+T> = None | Some(value: T)

  datatype Result<+T, +E> = Ok(value: T) | Err(error: E)
}
