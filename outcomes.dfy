/** The error return of the Go functions: either a value or an error message. */
module Outcomes {
  datatype Result<T> = Ok(value: T) | Err(message: string)
}
