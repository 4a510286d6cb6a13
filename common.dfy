/** The two wrappers the model uses: Option for Python's `None`, Result for a lookup that raises. */
module Common {
  datatype Option<T> = None | Some(value: T)

  datatype Result<T, E> = Ok(value: T) | Err(error: E)
}
