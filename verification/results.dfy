/** Option and Result: the error returns (and recovered panics) of the Go code
    become values the caller can inspect. */
module Results {

  datatype Option<+T> = None | Some(value: T)

  datatype Result<+T, +E> = Ok(value: T) | Err(error: E)
}
