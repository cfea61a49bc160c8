// Shared wrapper types: an operation that can fail returns a value or says why it has none,
// and a search returns something or nothing.
//
// Both stand for what the program does with exceptions and null pointers. The errors
// themselves belong to the modules that raise them.
module Results {
  datatype Result<T, E> = Ok(value: T) | Err(error: E)

  datatype Option<T> = None | Some(value: T)
}
