/** Success with a value, or failure with a message. */
module Results {
  datatype Result<+T> = Ok(value: T) | Err(error: string)
}
