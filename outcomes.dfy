/** The result of an operation that the source aborts on: either a value or
    the reason it would have stopped the program. */
module Outcomes {
  datatype Result<T, E> = Ok(value: T) | Err(error: E)
}
