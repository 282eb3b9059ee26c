/** The two shared result types: an optional value, and a value or the name of the Python exception raised. */
module Results {

  datatype Option<+T> = None | Some(value: T)

  datatype Result<+T> = Ok(value: T) | Err(error: string)
}
