/** Failure-carrying datatypes shared by the model: `Option` stands for a Java
    reference that may be null, `Result` for a call that may throw a checked
    exception. */
module Base {

  datatype Option<+T> = None | Some(value: T)

  datatype Result<+T, +E> = Ok(value: T) | Err(error: E)
}
