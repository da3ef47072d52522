/** Small failure-carrying wrappers shared by the lexer and the parser. */
module Results {

  /** An optional value. */
  datatype Option<T> = None | Some(value: T)

  /** The outcome of an operation that either yields a value or raises an error. */
  datatype Result<T, E> = Ok(value: T) | Err(error: E)
}
